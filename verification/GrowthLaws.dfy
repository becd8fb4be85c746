/** What `buildGraph` of docs-site/components/ambient/graph.ts comes to: how every branch lies,
    when a root is sure to grow, and which drawn pairs become links. */
module GrowthLaws {
  import opened Common
  import opened Geometry
  import opened Graph
  import opened Growth

  // ---------------------------------------------------------------------
  // Branches
  // ---------------------------------------------------------------------

  /** `c` is where some attempt from `p` reaches, to one side or the other. */
  ghost predicate Reached(page: Page, p: Point, c: Point)
  {
    exists dir: int, at: nat :: (dir == 1 || dir == -1) && c == Candidate(page, p, dir, at)
  }

  /** The edge leads from a node to a child of it, on the page, that an attempt reached. */
  ghost predicate Branch(page: Page, nodes: seq<Node>, e: Edge)
  {
    && On(nodes, e) && nodes[e.end].parent == Some(e.start)
    && page.InBounds(nodes[e.end].at) && Reached(page, nodes[e.start].at, nodes[e.end].at)
  }

  /** `r` is `l` and some branches more. */
  ghost predicate More(page: Page, l: Layout, r: Layout)
  {
    && l.nodes <= r.nodes && l.segments <= r.segments
    && forall k | |l.segments| <= k < |r.segments| :: Branch(page, r.nodes, r.segments[k])
  }

  lemma {:induction false} MoreAndMore(page: Page, l: Layout, m: Layout, r: Layout)
    requires More(page, l, m) && More(page, m, r)
    ensures More(page, l, r)
  {
    hide Reached;
    forall k | |l.segments| <= k < |r.segments|
      ensures Branch(page, r.nodes, r.segments[k])
    {
      if k < |m.segments| {
        assert r.segments[k] == m.segments[k] && Branch(page, m.nodes, m.segments[k]);
      }
    }
  }

  lemma {:induction false} BranchingIsMore(page: Page, l: Layout, parent: nat, dir: int)
    requires parent < |l.nodes| && (dir == 1 || dir == -1)
    ensures More(page, l, Branched(page, l, parent, dir).0)
  {
    hide FirstFit, FitsAt, Candidate, More;
    var k := FirstFit(page, l, parent, dir, 0);
    FirstFitFails(page, l, parent, dir, 0);
    if k == TRIES {
      NothingMore(page, l.(drawn := l.drawn + 2 * TRIES));
      MoreAnyway(page, l, l.drawn + 2 * TRIES, l.(drawn := l.drawn + 2 * TRIES));
    } else {
      FitsOnThePage(page, l, parent, dir, k);
      OneMore(page, l, parent, Candidate(page, l.nodes[parent].at, dir, l.drawn + 2 * k), l.drawn + 2 * (k + 1));
    }
  }

  lemma {:induction false} FitsOnThePage(page: Page, l: Layout, parent: nat, dir: int, k: nat)
    requires parent < |l.nodes| && (dir == 1 || dir == -1) && FitsAt(page, l, parent, dir, k)
    ensures var c := Candidate(page, l.nodes[parent].at, dir, l.drawn + 2 * k);
            page.InBounds(c) && Reached(page, l.nodes[parent].at, c)
  {
    hide Candidate;
  }

  lemma {:induction false} OneMore(page: Page, l: Layout, parent: nat, c: Point, drawn: nat)
    requires parent < |l.nodes| && page.InBounds(c) && Reached(page, l.nodes[parent].at, c)
    ensures More(page, l, Pushed(l, parent, c, drawn))
  {
    hide Reached;
  }

  lemma {:induction false} GrowingIsMore(page: Page, l: Layout, parent: nat, next: seq<nat>)
    requires parent < |l.nodes| && Known(next, l.nodes)
    ensures More(page, l, GrownFrom(page, l, parent, next).0)
  {
    hide Forked, Branched, More;
    if l.nodes[parent].at.y > page.height - page.Reach() * 0.5 {
      NothingMore(page, l);
    } else if page.rand(l.drawn) < 0.34 && |next| < MAX_FRONTIER * 2 {
      ForkingIsMore(page, l.(drawn := l.drawn + 1), parent, next);
      MoreAnyway(page, l, l.drawn + 1, GrownFrom(page, l, parent, next).0);
    } else {
      var dir := OneWay(page, l.nodes[parent].at, page.rand(l.drawn + 1));
      BranchingIsMore(page, l.(drawn := l.drawn + 2), parent, dir);
      MoreAnyway(page, l, l.drawn + 2, GrownFrom(page, l, parent, next).0);
    }
  }

  /** How many numbers have been drawn makes no difference to what is there. */
  lemma {:induction false} MoreAnyway(page: Page, l: Layout, drawn: nat, r: Layout)
    requires More(page, l.(drawn := drawn), r)
    ensures More(page, l, r)
  {
    hide Branch;
  }

  lemma {:induction false} ForkingIsMore(page: Page, l: Layout, parent: nat, next: seq<nat>)
    requires parent < |l.nodes| && Known(next, l.nodes)
    ensures More(page, l, Forked(page, l, parent, next).0)
  {
    BranchingIsMore(page, l, parent, -1);
    var a := Branched(page, l, parent, -1);
    BranchingIsMore(page, a.0, parent, 1);
    MoreAndMore(page, l, a.0, Branched(page, a.0, parent, 1).0);
    hide Branched, More;
  }

  lemma {:induction false} GrowingEachIsMore(page: Page, l: Layout, frontier: seq<nat>, next: seq<nat>)
    requires Known(frontier, l.nodes) && Known(next, l.nodes)
    ensures More(page, l, GrownEach(page, l, frontier, next).0)
    decreases |frontier|
  {
    hide GrownFrom, More;
    if frontier == [] {
      NothingMore(page, l);
    } else {
      var a := GrownFrom(page, l, frontier[0], next);
      GrowingIsMore(page, l, frontier[0], next);
      GrowingEachIsMore(page, a.0, frontier[1..], a.1);
      MoreAndMore(page, l, a.0, GrownEach(page, a.0, frontier[1..], a.1).0);
    }
  }

  lemma {:induction false} NothingMore(page: Page, l: Layout)
    ensures More(page, l, l)
  {
  }

  lemma {:induction false} GenerationsAreMore(page: Page, l: Layout, frontier: seq<nat>, guard: nat)
    requires Known(frontier, l.nodes)
    ensures More(page, l, Generations(page, l, frontier, guard))
    decreases guard
  {
    hide GrownEach, More, Thinned;
    if guard == 0 || frontier == [] {
      NothingMore(page, l);
    } else {
      var a := GrownEach(page, l, frontier, []);
      GrowingEachIsMore(page, l, frontier, []);
      GenerationsAreMore(page, a.0, Thinned(a.0.nodes, a.1), guard - 1);
      MoreAndMore(page, l, a.0, Generations(page, a.0, Thinned(a.0.nodes, a.1), guard - 1));
    }
  }

  // ---------------------------------------------------------------------
  // How a branch lies
  // ---------------------------------------------------------------------

  /** A direction: on the unit circle, and between the least and the greatest angle. */
  ghost predicate InCone(trig: Trig, sin: real, cos: real)
  {
    && sin >= 0.0 && cos >= 0.0 && Square(sin) + Square(cos) == 1.0
    && sin * trig.cos(trig.minAngle) >= cos * trig.sin(trig.minAngle)
    && sin * trig.cos(trig.maxAngle) <= cos * trig.sin(trig.maxAngle)
  }

  /** Sine and cosine, over the angles that growth may draw: on the unit circle, and the tangent lies
      between those of the least and the greatest angle. */
  ghost predicate Circular(trig: Trig)
  {
    && trig.minAngle <= trig.maxAngle
    && forall angle: real | trig.minAngle <= angle <= trig.maxAngle ::
         InCone(trig, trig.sin(angle), trig.cos(angle))
  }

  /** From `p` down to `c`, between the least and the greatest angle off the vertical, and between
      the least and the greatest length. */
  ghost predicate Leans(page: Page, p: Point, c: Point)
  {
    var trig, across, down := page.trig, Max(c.x - p.x, p.x - c.x), c.y - p.y;
    && down >= 0.0 && Square(page.MinLen()) <= Dist2(p, c) <= Square(page.MaxLen())
    && across * trig.cos(trig.minAngle) >= down * trig.sin(trig.minAngle)
    && across * trig.cos(trig.maxAngle) <= down * trig.sin(trig.maxAngle)
  }

  lemma {:induction false} Scales(length: real, a: real, b: real)
    requires length >= 0.0 && a >= b
    ensures a * length >= b * length
  {
    NonNegativeProduct(length, a - b);
    assert length * (a - b) == a * length - b * length;
  }

  lemma {:induction false} SquaresGrow(x: real, y: real)
    requires 0.0 <= x <= y
    ensures Square(x) <= Square(y)
  {
    Scales(x, y, x);
    Scales(y, y, x);
  }

  lemma {:induction false} OnTheCircle(sin: real, cos: real, length: real, across: real, down: real)
    requires Square(sin) + Square(cos) == 1.0 && across == sin * length && down == cos * length
    ensures Square(across) + Square(down) == Square(length)
  {
    SquareOfProduct(sin, length);
    SquareOfProduct(cos, length);
    assert Square(sin) * Square(length) + Square(cos) * Square(length) == (Square(sin) + Square(cos)) * Square(length);
  }

  lemma {:induction false} SquareOfProduct(x: real, y: real)
    ensures Square(x * y) == Square(x) * Square(y)
  {
  }

  lemma {:induction false} ScalesTheSlope(sin: real, cos: real, s: real, c: real, length: real, across: real,
                                          down: real)
    requires length >= 0.0 && sin * c >= cos * s && across == sin * length && down == cos * length
    ensures across * c >= down * s
  {
    Scales(length, sin * c, cos * s);
    assert (sin * length) * c == (sin * c) * length;
    assert (cos * length) * s == (cos * s) * length;
  }

  /** Sideways by `across`, to one side or the other. */
  lemma {:induction false} Aside(p: Point, dir: int, sin: real, cos: real, length: real, across: real, down: real)
    requires (dir == 1 || dir == -1) && across == sin * length && down == cos * length
    ensures Toward(p, dir, sin, cos, length) == Point(if dir == 1 then p.x + across else p.x - across, p.y + down)
  {
    if dir == 1 {
      assert (dir as real) * sin == sin;
    } else {
      assert (dir as real) * sin == -sin;
      assert (-sin) * length == -(sin * length);
    }
  }

  lemma {:induction false} CandidateLeans(page: Page, p: Point, dir: int, at: nat)
    requires page.Valid() && Circular(page.trig) && (dir == 1 || dir == -1)
    ensures Leans(page, p, Candidate(page, p, dir, at))
  {
    var trig := page.trig;
    var angle := Spanned(trig.minAngle, trig.maxAngle, page.rand(at));
    var length := Spanned(page.MinLen(), page.MaxLen(), page.rand(at + 1));
    SpannedBetween(trig.minAngle, trig.maxAngle, page.rand(at));
    SpannedBetween(page.MinLen(), page.MaxLen(), page.rand(at + 1));
    InTheCone(trig, angle);
    hide Spanned, Leans, Circular, Toward, InCone;
    TowardLeans(page, p, dir, trig.sin(angle), trig.cos(angle), length);
  }

  lemma {:induction false} InTheCone(trig: Trig, angle: real)
    requires Circular(trig) && trig.minAngle <= angle <= trig.maxAngle
    ensures InCone(trig, trig.sin(angle), trig.cos(angle))
  {
    hide InCone;
  }

  lemma {:induction false} TowardLeans(page: Page, p: Point, dir: int, sin: real, cos: real, length: real)
    requires InCone(page.trig, sin, cos) && (dir == 1 || dir == -1) && page.MinLen() <= length <= page.MaxLen()
    ensures Leans(page, p, Toward(p, dir, sin, cos, length))
  {
    var trig, across, down := page.trig, sin * length, cos * length;
    NonNegativeProduct(sin, length);
    NonNegativeProduct(cos, length);
    ScalesTheSlope(sin, cos, trig.sin(trig.minAngle), trig.cos(trig.minAngle), length, across, down);
    ScalesTheSlope(cos, sin, trig.cos(trig.maxAngle), trig.sin(trig.maxAngle), length, down, across);
    OnTheCircle(sin, cos, length, across, down);
    SquaresGrow(page.MinLen(), length);
    SquaresGrow(length, page.MaxLen());
    Aside(p, dir, sin, cos, length, across, down);
    hide InCone, Toward, Leans, Square;
    Lies(page, p, Toward(p, dir, sin, cos, length), across, down);
  }

  lemma {:induction false} Lies(page: Page, p: Point, c: Point, across: real, down: real)
    requires across >= 0.0 && (c.x == p.x + across || c.x == p.x - across) && c.y == p.y + down && down >= 0.0
    requires Square(page.MinLen()) <= Square(across) + Square(down) <= Square(page.MaxLen())
    requires across * page.trig.cos(page.trig.minAngle) >= down * page.trig.sin(page.trig.minAngle)
    requires across * page.trig.cos(page.trig.maxAngle) <= down * page.trig.sin(page.trig.maxAngle)
    ensures Leans(page, p, c)
  {
    assert Max(c.x - p.x, p.x - c.x) == across;
    assert Square(p.x - c.x) == Square(across) && Square(p.y - c.y) == Square(down);
  }

  lemma {:induction false} SpannedBetween(lo: real, hi: real, u: real)
    requires lo <= hi && 0.0 <= u < 1.0
    ensures lo <= Spanned(lo, hi, u) <= hi
  {
    Scales(hi - lo, u, 0.0);
    Scales(hi - lo, 1.0, u);
  }

  /** Every branch of the tree leads to a node on the page, down from its parent, at an angle and a
      length within the limits; so none reads as a rule, and none as a stub. */
  lemma {:induction false} EveryBranchLeans(page: Page, k: nat)
    requires page.Valid() && Circular(page.trig) && k < |Tree(page).segments|
    ensures var (nodes, e) := (Tree(page).nodes, Tree(page).segments[k]);
            && On(nodes, e) && nodes[e.end].parent == Some(e.start) && page.InBounds(nodes[e.end].at)
            && Leans(page, nodes[e.start].at, nodes[e.end].at)
  {
    var nodes, e := Tree(page).nodes, Tree(page).segments[k];
    EveryEdgeIsABranch(page, k);
    hide Tree, Leans, Circular, Reached, Page.Valid, Page.InBounds;
    ReachedLeans(page, nodes[e.start].at, nodes[e.end].at);
  }

  lemma {:induction false} EveryEdgeIsABranch(page: Page, k: nat)
    requires k < |Tree(page).segments|
    ensures Branch(page, Tree(page).nodes, Tree(page).segments[k])
  {
    var start := Layout(Roots(page.width, page.height), [], 0);
    hide Generations, Roots, Branch;
    GenerationsAreMore(page, start, [0, 1, 2, 3], GENERATIONS);
  }

  lemma {:induction false} ReachedLeans(page: Page, p: Point, c: Point)
    requires page.Valid() && Circular(page.trig) && Reached(page, p, c)
    ensures Leans(page, p, c)
  {
    hide Leans, Candidate, Circular;
    var dir: int, at: nat :| (dir == 1 || dir == -1) && c == Candidate(page, p, dir, at);
    CandidateLeans(page, p, dir, at);
  }

  // ---------------------------------------------------------------------
  // Which way a node grows
  // ---------------------------------------------------------------------

  /** High enough on the page to grow. */
  predicate Grows(page: Page, p: Point)
  {
    p.y <= page.height - page.Reach() * 0.5
  }

  /** A frontier node that forks grows to its left first, and then, with the numbers that follow, to
      its right. */
  lemma {:induction false} AForkGoesBothWays(page: Page, l: Layout, parent: nat, next: seq<nat>)
    requires parent < |l.nodes| && Known(next, l.nodes) && Grows(page, l.nodes[parent].at)
    requires page.rand(l.drawn) < 0.34 && |next| < MAX_FRONTIER * 2
    requires var once := l.(drawn := l.drawn + 1);
             FitsAt(page, once, parent, -1, 0) &&
             FitsAt(page, Pushed(once, parent, Candidate(page, l.nodes[parent].at, -1, l.drawn + 1), l.drawn + 3),
                    parent, 1, 0)
    ensures var (a, p, n) := (GrownFrom(page, l, parent, next), l.nodes[parent].at, |l.nodes|);
            && a.0.nodes == l.nodes + [Node(Candidate(page, p, -1, l.drawn + 1), Some(parent)),
                                       Node(Candidate(page, p, 1, l.drawn + 3), Some(parent))]
            && a.0.segments == l.segments + [Edge(parent, n), Edge(parent, n + 1)]
            && a.0.drawn == l.drawn + 5 && a.1 == next + [n, n + 1]
  {
    hide FitsAt, Candidate, FirstFit;
    var once := l.(drawn := l.drawn + 1);
    var first := Pushed(once, parent, Candidate(page, l.nodes[parent].at, -1, l.drawn + 1), l.drawn + 3);
    FirstTakes(page, once, parent, -1);
    FirstTakes(page, first, parent, 1);
    hide Branched;
    assert GrownFrom(page, l, parent, next) == Forked(page, once, parent, next) by { hide Forked; }
    hide GrownFrom;
  }

  /** An attempt that fits at once is taken. */
  lemma {:induction false} FirstTakes(page: Page, l: Layout, parent: nat, dir: int)
    requires parent < |l.nodes| && FitsAt(page, l, parent, dir, 0)
    ensures Branched(page, l, parent, dir) ==
            (Pushed(l, parent, Candidate(page, l.nodes[parent].at, dir, l.drawn), l.drawn + 2), Some(|l.nodes|))
  {
    hide FitsAt, Candidate;
    BranchTakesTheFirstFit(page, l, parent, dir, 0);
  }

  /** One that does not fork grows toward the middle of the page or away from it, by its second
      random number. */
  lemma {:induction false} OneBranchGoesInward(page: Page, l: Layout, parent: nat, next: seq<nat>, dir: int)
    requires parent < |l.nodes| && Known(next, l.nodes) && Grows(page, l.nodes[parent].at)
    requires page.rand(l.drawn) >= 0.34 || |next| >= MAX_FRONTIER * 2
    requires dir == 1 || dir == -1
    requires (dir == 1) == ((l.nodes[parent].at.x < page.width * 0.5) == (page.rand(l.drawn + 1) < 0.62))
    requires FitsAt(page, l.(drawn := l.drawn + 2), parent, dir, 0)
    ensures var (a, p, n) := (GrownFrom(page, l, parent, next), l.nodes[parent].at, |l.nodes|);
            && a.0.nodes == l.nodes + [Node(Candidate(page, p, dir, l.drawn + 2), Some(parent))]
            && a.0.segments == l.segments + [Edge(parent, n)]
            && a.0.drawn == l.drawn + 4 && a.1 == next + [n]
  {
    hide FitsAt, Candidate, FirstFit, Forked;
    FirstTakes(page, l.(drawn := l.drawn + 2), parent, dir);
    hide Branched;
    assert OneWay(page, l.nodes[parent].at, page.rand(l.drawn + 1)) == dir;
    hide OneWay;
  }

  // ---------------------------------------------------------------------
  // A root that is sure to grow
  // ---------------------------------------------------------------------

  /** The first root branches inward if the first two random numbers say so and the first attempt
      is on the page and far from the other roots; and its child is the first thing pushed. */
  lemma {:induction false} TheFirstRootGrows(page: Page)
    requires page.Valid() && page.width > 0.0 && page.height > 0.0
    requires page.rand(0) >= 0.34 && page.rand(1) < 0.62
    requires var roots := Roots(page.width, page.height);
             var c := Candidate(page, roots[0].at, 1, 2);
             page.InBounds(c) && forall k | 1 <= k < 4 :: Dist2(roots[k].at, c) >= NODE_CLEAR2
    ensures var (b, roots) := (Built(page), Roots(page.width, page.height));
            && |b.nodes| > 4 && b.nodes[4] == Node(Candidate(page, roots[0].at, 1, 2), Some(0))
            && |b.segments| > 0 && b.segments[0] == Edge(0, 4)
  {
    FirstRootBranches(page);
    hide GrownFrom, Candidate, Tree, Built, Page.InBounds;
    var a := GrownFrom(page, Layout(Roots(page.width, page.height), [], 0), 0, []).0;
    TheFirstStays(page);
    hide *;
    assert a.nodes <= Built(page).nodes && a.segments <= Built(page).segments;
  }

  lemma {:induction false} TheFirstStays(page: Page)
    requires page.Valid()
    ensures var (a, b) := (GrownFrom(page, Layout(Roots(page.width, page.height), [], 0), 0, []).0, Built(page));
            a.nodes <= b.nodes && a.segments <= b.segments
  {
    var start, frontier := Layout(Roots(page.width, page.height), [], 0), [0, 1, 2, 3];
    hide GrownFrom, Roots, Generations, Linked;
    TheFirstOfMany(page, start, frontier, GENERATIONS);
    LinkedStopsWhenDone(page, Tree(page), Budget(Tree(page).nodes), |Tree(page).nodes| * 12);
    Prefixed(GrownFrom(page, start, 0, []).0, Tree(page), Built(page));
  }

  lemma {:induction false} Prefixed(a: Layout, b: Layout, c: Layout)
    requires a.nodes <= b.nodes <= c.nodes && a.segments <= b.segments <= c.segments
    ensures a.nodes <= c.nodes && a.segments <= c.segments
  {
  }

  /** What the first of a frontier pushes stays. */
  lemma {:induction false} TheFirstOfMany(page: Page, l: Layout, frontier: seq<nat>, guard: nat)
    requires frontier != [] && Known(frontier, l.nodes) && guard > 0
    ensures var a, r := GrownFrom(page, l, frontier[0], []).0, Generations(page, l, frontier, guard);
            a.nodes <= r.nodes && a.segments <= r.segments
  {
    hide GrownFrom, Thinned, Branch;
    var a := GrownFrom(page, l, frontier[0], []);
    GrowingEachIsMore(page, a.0, frontier[1..], a.1);
    var g := GrownEach(page, l, frontier, []);
    assert g == GrownEach(page, a.0, frontier[1..], a.1);
    hide GrownEach;
    GenerationsAreMore(page, g.0, Thinned(g.0.nodes, g.1), guard - 1);
    assert Generations(page, l, frontier, guard) == Generations(page, g.0, Thinned(g.0.nodes, g.1), guard - 1);
    hide Generations;
  }

  lemma {:induction false} FirstRootBranches(page: Page)
    requires page.Valid() && page.width > 0.0 && page.height > 0.0
    requires page.rand(0) >= 0.34 && page.rand(1) < 0.62
    requires var roots := Roots(page.width, page.height);
             var c := Candidate(page, roots[0].at, 1, 2);
             page.InBounds(c) && forall k | 1 <= k < 4 :: Dist2(roots[k].at, c) >= NODE_CLEAR2
    ensures var roots := Roots(page.width, page.height);
            var a := GrownFrom(page, Layout(roots, [], 0), 0, []);
            && a.0.nodes == roots + [Node(Candidate(page, roots[0].at, 1, 2), Some(0))]
            && a.0.segments == [Edge(0, 4)] && a.1 == [4]
  {
    var roots := Roots(page.width, page.height);
    var l := Layout(roots, [], 2);
    assert Grows(page, roots[0].at) && roots[0].at.x < page.width * 0.5;
    hide Candidate, Dist2;
    assert FitsAt(page, l, 0, 1, 0);
    assert Layout(roots, [], 0).(drawn := 2) == l;
    hide FitsAt, GrownFrom, Grows;
    OneBranchGoesInward(page, Layout(roots, [], 0), 0, [], 1);
  }

  // ---------------------------------------------------------------------
  // Links
  // ---------------------------------------------------------------------

  /** One random number picks node `i` of `n` if and only if it lies in the `i`-th of `n` equal parts. */
  lemma {:induction false} PickedExactlyWhen(page: Page, at: nat, n: nat, i: nat)
    requires page.Valid() && n > 0
    ensures PickAt(page, at, n) == i <==> (i as real) <= page.rand(at) * (n as real) < (i as real) + 1.0
  {
  }

  /** There is a link for at most nine nodes in ten, to the nearest whole number. */
  lemma {:induction false} BudgetIsNearest(nodes: seq<Node>)
    ensures -5 <= 10 * Budget(nodes) - 9 * |nodes| <= 5 && 10 * Budget(nodes) - 9 * |nodes| != -5
  {
    var x := (|nodes| as real) * LINK_RATIO;
    assert 10.0 * x == 9.0 * (|nodes| as real);
  }

  /** The number of links, after some draws. */
  ghost function Added(page: Page, l: Layout, budget: int, draws: nat): int
    requires page.Valid() && l.nodes != []
  {
    |Linked(page, l, budget, draws).segments| - |l.segments|
  }

  /** Each pair drawn while there are links left is linked if and only if it may be, given all that
      was linked before it: none that fits is passed over, and none that does not is taken. */
  lemma {:induction false} EachDrawLinksWhatFits(page: Page, l: Layout, budget: int, draws: nat)
    requires page.Valid() && l.nodes != [] && Added(page, l, budget, draws) < budget
    ensures var m := Linked(page, l, budget, draws);
            var at, n := l.drawn + 2 * draws, |l.nodes|;
            var (i, j) := (PickAt(page, at, n), PickAt(page, at + 1, n));
            && m.nodes == l.nodes && m.drawn == l.drawn + 2 * draws
            && Linked(page, l, budget, draws + 1) ==
               Layout(m.nodes,
                      if i != j && LinkFits(m.nodes, m.segments, i, j, Keys(m.segments))
                         && SpanFits(page, m.nodes[i].at, m.nodes[j].at)
                      then m.segments + [Edge(i, j)] else m.segments,
                      m.drawn + 2)
    decreases draws
  {
    hide LinkFits, SpanFits, PickAt, Keys, Linked;
    LeftToLink(page, l, budget, draws);
    if draws == 0 {
      DrawsOnce(page, l, budget);
    } else {
      hide Links;
      Unfolds(page, l, budget, draws);
      Unfolds(page, l, budget, draws + 1);
      LinkOrNot(page, l);
      hide PairDrawn;
      EachDrawLinksWhatFits(page, PairDrawn(page, l), if Links(page, l) then budget - 1 else budget, draws - 1);
    }
  }

  lemma {:induction false} LeftToLink(page: Page, l: Layout, budget: int, draws: nat)
    requires page.Valid() && l.nodes != [] && Added(page, l, budget, draws) < budget
    ensures budget > 0
  {
    if budget <= 0 {
      NothingToLink(page, l, budget, draws);
    }
  }

  lemma {:induction false} Unfolds(page: Page, l: Layout, budget: int, draws: nat)
    requires page.Valid() && l.nodes != [] && budget > 0 && draws > 0
    ensures Linked(page, l, budget, draws) ==
            Linked(page, PairDrawn(page, l), if Links(page, l) then budget - 1 else budget, draws - 1)
  {
    hide Links, PairDrawn;
  }

  lemma {:induction false} LinkOrNot(page: Page, l: Layout)
    requires page.Valid() && l.nodes != []
    ensures |PairDrawn(page, l).segments| == |l.segments| + if Links(page, l) then 1 else 0
  {
    hide Links, PickAt;
  }

  lemma {:induction false} DrawsOnce(page: Page, l: Layout, budget: int)
    requires page.Valid() && l.nodes != [] && budget > 0
    ensures Linked(page, l, budget, 0) == l && Linked(page, l, budget, 1) == PairDrawn(page, l)
  {
    hide Links, PairDrawn;
    NothingToLink(page, PairDrawn(page, l), if Links(page, l) then budget - 1 else budget, 0);
  }
}
