/** What every event of the turn protocol does to the page: who loses the turn, who gets it, and
    what stays as it was. */
module TurnEvents {
  import opened Common
  import opened Turns

  // ---------------------------------------------------------------------
  // Giving the turn up
  // ---------------------------------------------------------------------

  /** The flow is in sight, and its terminal is there to start. */
  predicate Accepts(flow: Flow)
  {
    flow.onScreen && flow.upgraded
  }

  /** The flow in place `k` of the line is the first to accept a turn; none does if `k` is its end. */
  predicate FirstTaker(p: Page, k: nat)
    requires InRange(p)
  {
    && k <= |p.waiting|
    && (forall j | 0 <= j < k :: !Accepts(p.flows[p.waiting[j]]))
    && (k < |p.waiting| ==> Accepts(p.flows[p.waiting[k]]))
  }

  lemma {:induction false} FirstTakerExists(p: Page) returns (k: nat)
    requires InRange(p)
    ensures FirstTaker(p, k)
  {
    k := 0;
    while k < |p.waiting| && !Accepts(p.flows[p.waiting[k]])
      invariant k <= |p.waiting| && forall j | 0 <= j < k :: !Accepts(p.flows[p.waiting[j]])
    {
      k := k + 1;
    }
  }

  /** Flow `f`, left as `a`, has neither the turn nor a place in the line nor a timer running. If it
      had the turn, the first flow in line that accepts has begun a session, those before it are
      out of the line, and those behind it still wait; if it had not, nothing else has changed. */
  ghost predicate GaveUp(p: Page, q: Page, f: nat, a: Flow)
    requires InRange(p) && f < |p.flows| == |q.flows|
  {
    && q.holder != Some(f) && f !in q.waiting && q.flows[f] == a && !a.watchdog && !a.settle && !a.dwell
    && if p.holder == Some(f) then forall k | FirstTaker(p, k) :: HandedTo(p, q, f, k)
       else
         && q.holder == p.holder && q.starts == p.starts && q.waiting == Without(p.waiting, f)
         && forall g | 0 <= g < |p.flows| && g != f :: q.flows[g] == p.flows[g]
  }

  ghost predicate HandedTo(p: Page, q: Page, f: nat, k: nat)
    requires InRange(p) && |p.flows| == |q.flows| && k <= |p.waiting|
  {
    if k == |p.waiting| then
      && q.holder == None && q.waiting == [] && q.starts == p.starts
      && forall g | 0 <= g < |p.flows| && g != f :: q.flows[g] == p.flows[g]
    else
      var next := p.waiting[k];
      && q.holder == Some(next) && q.waiting == p.waiting[k + 1..] && q.starts == p.starts + [Start(next, true)]
      && q.flows[next] == p.flows[next].Started() && q.flows[next].Playing()
      && forall g | 0 <= g < |p.flows| && g != f && g != next :: q.flows[g] == p.flows[g]
  }

  lemma {:induction false} ReleaseIs(p: Page, f: nat, flow: Flow)
    requires InRange(p) && Distinct(p.waiting) && f < |p.flows|
    ensures var left := p.(flows := p.flows[f := flow.Disarmed()]);
            Release(p.With(f, flow), f) ==
            if p.holder == Some(f) then OfferTurn(left.(holder := None, waiting := Without(p.waiting, f)))
            else left.(waiting := Without(p.waiting, f))
  {
    hide OfferTurn, Without;
    assert p.With(f, flow).With(f, flow.Disarmed()).flows == p.flows[f := flow.Disarmed()];
  }

  lemma {:induction false} ReleaseGivesUp(p: Page, f: nat, flow: Flow)
    requires InRange(p) && Distinct(p.waiting) && f < |p.flows| && !(p.holder == Some(f) && f in p.waiting)
    ensures GaveUp(p, Release(p.With(f, flow), f), f, flow.Disarmed())
  {
    WithoutIs(p.waiting, f);
    ReleaseIs(p, f, flow);
    hide Release, Without, OfferTurn;
    if p.holder == Some(f) {
      var left := p.(flows := p.flows[f := flow.Disarmed()], holder := None);
      var k0 := FirstTakerExists(p);
      OfferHandsOver(p, left, f, k0);
      hide HandedTo;
      forall k: nat | FirstTaker(p, k)
        ensures HandedTo(p, OfferTurn(left), f, k)
      {
        OfferHandsOver(p, left, f, k);
      }
    }
  }

  lemma {:induction false} OfferHandsOver(p: Page, left: Page, f: nat, k: nat)
    requires InRange(p) && f < |p.flows| && f !in p.waiting && FirstTaker(p, k)
    requires f < |left.flows| && left == p.(flows := p.flows[f := left.flows[f]], holder := None)
    ensures var q := OfferTurn(left);
            && HandedTo(p, q, f, k) && q.flows[f] == left.flows[f] && q.holder != Some(f) && f !in q.waiting
  {
    forall j | 0 <= j < |p.waiting|
      ensures p.waiting[j] != f && left.flows[p.waiting[j]] == p.flows[p.waiting[j]]
    {
      assert p.waiting[j] in p.waiting;
    }
    OfferStopsAtTheFirstTaker(left, k);
    hide OfferTurn;
  }

  lemma {:induction false} InOrder(p: Page, f: nat)
    requires QueueInv(p) && f < |p.flows|
    ensures InRange(p) && Distinct(p.waiting) && !(p.holder == Some(f) && f in p.waiting)
  {
    assert FlowAt(p, f);
  }

  lemma {:induction false} StandDownGivesUp(p: Page, f: nat, flow: Flow)
    requires QueueInv(p) && f < |p.flows|
    ensures GaveUp(p, StandDown(p.With(f, flow), f), f, flow.Stopped().Disarmed())
  {
    InOrder(p, f);
    hide Release, QueueInv, GaveUp;
    ReleaseGivesUp(p, f, flow.Stopped());
    assert p.With(f, flow).With(f, flow.Stopped()) == p.With(f, flow.Stopped());
  }

  /** Stopping ends the session of the terminal's current run. */
  lemma {:induction false} StoppedIsOver(p: Page, f: nat, flow: Flow)
    requires QueueInv(p) && f < |p.flows| && flow.run == p.flows[f].run && flow.live == p.flows[f].live
    requires flow.upgraded == p.flows[f].upgraded
    ensures !flow.Stopped().Disarmed().Playing()
  {
    assert FlowAt(p, f);
  }

  /** What the observer's entry makes of the flow itself. */
  function Seen(flow: Flow, eligible: bool): (r: Flow)
    ensures r.onScreen == eligible && r.run == flow.run && r.live == flow.live && r.upgraded == flow.upgraded
    ensures r.played == flow.played && r.connected == flow.connected
  {
    if eligible == flow.onScreen then flow
    else if eligible then Arm(flow.(onScreen := true))
    else flow.(onScreen := false, dwell := false)
  }

  lemma {:induction false} ScrolledAwayIs(p: Page, f: nat, eligible: bool)
    requires InRange(p) && f < |p.flows| && p.flows[f].connected
    ensures var q := p.With(f, Seen(p.flows[f], eligible));
            Step(p, Intersect(f, eligible, true)) == if p.holder == Some(f) then StandDown(q, f) else Release(q, f)
  {
    hide StandDown, Release;
  }

  /** A flow scrolled entirely out of view gives everything up, and if it had the turn its session
      is over and the turn goes down the line. */
  lemma {:induction false} ScrolledAwayGivesUp(p: Page, f: nat, eligible: bool)
    requires QueueInv(p) && f < |p.flows| && p.flows[f].connected
    ensures var q := Step(p, Intersect(f, eligible, true));
            && GaveUp(p, q, f, q.flows[f]) && q.flows[f].onScreen == eligible
            && q.flows[f].played == p.flows[f].played && q.flows[f].connected
            && q.flows[f].live == p.flows[f].live
            && (p.holder == Some(f) ==> !q.flows[f].Playing())
            && (p.holder != Some(f) ==> q.flows[f].run == p.flows[f].run)
  {
    var seen := Seen(p.flows[f], eligible);
    ScrolledAwayIs(p, f, eligible);
    StoppedIsOver(p, f, seen);
    InOrder(p, f);
    StandDownGivesUp(p, f, seen);
    ReleaseGivesUp(p, f, seen);
    GaveUpLeaves(p, Step(p, Intersect(f, eligible, true)), f,
                 if p.holder == Some(f) then seen.Stopped().Disarmed() else seen.Disarmed());
    hide Step, StandDown, Release, QueueInv, GaveUp, Seen;
  }

  lemma {:induction false} GaveUpLeaves(p: Page, q: Page, f: nat, a: Flow)
    requires InRange(p) && f < |p.flows| == |q.flows| && GaveUp(p, q, f, a)
    ensures q.flows[f] == a
  {
  }

  /** The settle timer gives the turn back, the transcript left as it is. */
  lemma {:induction false} SettledGivesUp(p: Page, f: nat)
    requires QueueInv(p) && f < |p.flows| && p.flows[f].settle
    ensures GaveUp(p, Step(p, SettleFires(f)), f, p.flows[f].Disarmed())
  {
    InOrder(p, f);
    ReleaseGivesUp(p, f, p.flows[f].(settle := false));
    hide Release, QueueInv, GaveUp;
  }

  /** The watchdog stops the session and gives the turn back. */
  lemma {:induction false} WatchdogGivesUp(p: Page, f: nat)
    requires QueueInv(p) && f < |p.flows| && p.flows[f].watchdog
    ensures var q := Step(p, WatchdogFires(f));
            GaveUp(p, q, f, p.flows[f].Stopped().Disarmed()) && !q.flows[f].Playing()
  {
    StoppedIsOver(p, f, p.flows[f]);
    StandDownGivesUp(p, f, p.flows[f].(watchdog := false));
    hide StandDown, QueueInv;
  }

  /** Only the flow itself changes once it has given everything up. */
  lemma {:induction false} ThenChanged(p: Page, q: Page, f: nat, a: Flow, b: Flow)
    requires InRange(p) && f < |p.flows| == |q.flows| && GaveUp(p, q, f, a)
    requires !(p.holder == Some(f) && f in p.waiting) && !b.watchdog && !b.settle && !b.dwell
    ensures GaveUp(p, q.With(f, b), f, b)
  {
    if p.holder == Some(f) {
      forall k: nat | FirstTaker(p, k)
        ensures HandedTo(p, q.With(f, b), f, k)
      {
        assert HandedTo(p, q, f, k);
        assert k < |p.waiting| ==> p.waiting[k] in p.waiting;
      }
    }
  }

  lemma {:induction false} RemovedIs(p: Page, f: nat)
    requires InRange(p) && f < |p.flows| && p.flows[f].connected
    ensures var gone := p.flows[f].(connected := false, onScreen := false);
            var q := Release(p.With(f, gone), f);
            Step(p, Disconnect(f)) == q.With(f, q.flows[f].Stopped())
  {
    hide Release;
  }

  /** A flow taken out of the document gives everything up, and its session is over. */
  lemma {:induction false} RemovedGivesUp(p: Page, f: nat)
    requires QueueInv(p) && f < |p.flows| && p.flows[f].connected
    ensures var q := Step(p, Disconnect(f));
            && GaveUp(p, q, f, p.flows[f].(connected := false, onScreen := false).Stopped().Disarmed())
            && !q.flows[f].Playing()
  {
    var gone := p.flows[f].(connected := false, onScreen := false);
    RemovedIs(p, f);
    StoppedIsOver(p, f, gone);
    InOrder(p, f);
    ReleaseGivesUp(p, f, gone);
    GaveUpLeaves(p, Release(p.With(f, gone), f), f, gone.Disarmed());
    ThenChanged(p, Release(p.With(f, gone), f), f, gone.Disarmed(), gone.Stopped().Disarmed());
    GaveUpLeaves(p, Step(p, Disconnect(f)), f, gone.Stopped().Disarmed());
    hide Step, Release, QueueInv, GaveUp;
  }

  // ---------------------------------------------------------------------
  // Asking for the turn
  // ---------------------------------------------------------------------

  /** A flow that comes into view starts its dwell, unless it has had its automatic turn; one that
      leaves it throws the dwell away. Nothing else changes. */
  lemma {:induction false} ViewStartsTheDwell(p: Page, f: nat, eligible: bool)
    requires QueueInv(p) && f < |p.flows| && p.flows[f].connected
    ensures var q, b := Step(p, Intersect(f, eligible, false)), p.flows[f];
            && q == p.With(f, b.(onScreen := eligible, dwell := q.flows[f].dwell))
            && (!b.onScreen && eligible && !b.played ==> q.flows[f].dwell)
            && (b.onScreen && !eligible ==> !q.flows[f].dwell)
            && (b.onScreen == eligible || b.played ==> q.flows[f].dwell ==> b.dwell)
            && (b.onScreen == eligible ==> q == p)
  {
    assert p.With(f, p.flows[f]) == p;
  }

  /** When the dwell ends, a flow that has not had its automatic turn asks for it: it starts at once
      if nobody has the turn and it accepts, and otherwise waits at the end of the line. */
  lemma {:induction false} DwellAsksForTheTurn(p: Page, f: nat)
    requires QueueInv(p) && f < |p.flows| && p.flows[f].dwell
    ensures var q, b := Step(p, DwellFires(f)), p.flows[f].(dwell := false);
            && (b.played || p.holder == Some(f) || f in p.waiting ==> q == p.With(f, b))
            && (!b.played && f !in p.waiting && p.holder.Some? ==>
                  q == p.With(f, b).(waiting := p.waiting + [f]))
            && (!b.played && p.holder.None? && Accepts(b) ==>
                  && q == p.With(f, b.Started()).(holder := Some(f), starts := p.starts + [Start(f, true)])
                  && q.flows[f].Playing())
            && (!b.played && p.holder.None? && !Accepts(b) ==> q == p.With(f, b))
  {
    assert FlowAt(p, f);
    if !p.flows[f].played && p.holder.None? {
      var joined := p.With(f, p.flows[f].(dwell := false)).(waiting := [f]);
      assert [] + [f] == [f] && [f][1..] == [];
      OfferStopsAtTheFirstTaker(joined, if Accepts(p.flows[f]) then 0 else 1);
      assert joined.flows[f := joined.flows[f].Started()] == p.flows[f := p.flows[f].(dwell := false).Started()];
      hide OfferTurn;
    }
  }

  /** Replay outranks the line: whoever held the turn is stopped, and the flow has it and plays. */
  lemma {:induction false} ReplayTakesTheTurn(p: Page, f: nat)
    requires QueueInv(p) && f < |p.flows| && p.flows[f].connected && p.flows[f].upgraded
    ensures var q := Step(p, Replay(f));
            && q.holder == Some(f) && q.flows[f] == p.flows[f].Started() && q.flows[f].Playing()
            && q.waiting == Without(p.waiting, f) && q.starts == p.starts + [Start(f, false)]
            && forall g | 0 <= g < |p.flows| && g != f ::
                 q.flows[g] == if p.holder == Some(g) then p.flows[g].Stopped().Disarmed() else p.flows[g]
  {
    ClaimHandsTheTurnToNobodyElse(p, f);
    hide ClaimTurn, QueueInv, Without;
  }

  /** Without a terminal to start, Replay still stops whoever held the turn, and then the flow gives
      up the turn it claimed. */
  lemma {:induction false} ReplayWithoutATerminal(p: Page, f: nat)
    requires QueueInv(p) && f < |p.flows| && p.flows[f].connected && !p.flows[f].upgraded
    ensures var h := p.holder;
            var stopped := if h.Some? && h != Some(f) then p.With(h.value, p.flows[h.value].Stopped().Disarmed())
                           else p;
            GaveUp(stopped.(holder := Some(f), waiting := Without(p.waiting, f)), Step(p, Replay(f)), f,
                   p.flows[f].Disarmed())
  {
    ClaimHandsTheTurnToNobodyElse(p, f);
    WithoutIs(p.waiting, f);
    var claimed := ClaimTurn(p, f);
    var h := p.holder;
    var stopped := if h.Some? && h != Some(f) then p.With(h.value, p.flows[h.value].Stopped().Disarmed()) else p;
    assert claimed.flows == stopped.flows;
    assert claimed == stopped.(holder := Some(f), waiting := Without(p.waiting, f));
    hide ClaimTurn, QueueInv, Without, GaveUp;
    ReleaseGivesUp(claimed, f, claimed.flows[f]);
    assert claimed.With(f, claimed.flows[f]) == claimed;
    hide Release;
  }

  /** The end of a run starts the settle timer if it is the current run of a flow that is on the
      page and holds the turn, and in every case changes nothing else. */
  lemma {:induction false} RunEndSettles(p: Page, f: nat, token: nat)
    requires InRange(p) && f < |p.flows| && token in p.flows[f].live
    ensures var q, b := Step(p, RunEnds(f, token)), p.flows[f];
            && q == p.With(f, b.(live := b.live - {token}, settle := q.flows[f].settle))
            && q.flows[f].settle == (b.settle || (token == b.run && b.connected && p.holder == Some(f)))
  {
  }

  lemma {:induction false} ComesIntoView(p: Page, f: nat)
    requires Initial(p) && f < |p.flows|
    ensures var q := p.With(f, p.flows[f].(connected := true, upgraded := true, onScreen := true, dwell := true));
            Step(Step(Step(p, Connect(f)), Upgrade(f)), Intersect(f, true, false)) == q
  {
    var a := p.With(f, p.flows[f].(connected := true));
    var b := a.With(f, a.flows[f].(upgraded := true));
    assert Step(p, Connect(f)) == a && Step(a, Upgrade(f)) == b;
  }

  lemma {:induction false} WatchedIs(p: Page, f: nat)
    requires Initial(p) && f < |p.flows|
    ensures var q := p.With(f, p.flows[f].(connected := true, upgraded := true, onScreen := true, dwell := true));
            Run(p, [Connect(f), Upgrade(f), Intersect(f, true, false)]) == q && QueueInv(q)
  {
    ComesIntoView(p, f);
    InitialIsInOrder(p);
    RunKeeps(p, [Connect(f), Upgrade(f), Intersect(f, true, false)]);
    hide *;
    RunSnoc(p, [], Connect(f));
    RunSnoc(p, [Connect(f)], Upgrade(f));
    RunSnoc(p, [Connect(f), Upgrade(f)], Intersect(f, true, false));
    assert [] + [Connect(f)] == [Connect(f)];
    assert [Connect(f)] + [Upgrade(f)] == [Connect(f), Upgrade(f)];
    assert [Connect(f), Upgrade(f)] + [Intersect(f, true, false)]
        == [Connect(f), Upgrade(f), Intersect(f, true, false)];
    RunOfNone(p);
  }

  lemma {:induction false} RunOfNone(p: Page)
    requires InRange(p)
    ensures Run(p, []) == p
  {
  }

  /** A flow that comes into view of a fresh page and stays there plays. */
  lemma {:induction false} AWatchedFlowPlays(p: Page, f: nat)
    requires Initial(p) && f < |p.flows|
    ensures var q := Run(p, [Connect(f), Upgrade(f), Intersect(f, true, false), DwellFires(f)]);
            q.holder == Some(f) && q.flows[f].Playing() && q.starts == [Start(f, true)]
  {
    var es := [Connect(f), Upgrade(f), Intersect(f, true, false)];
    WatchedIs(p, f);
    FreshPage(p, f);
    hide Step, Run, QueueInv, Initial, Clean;
    RunSnoc(p, es, DwellFires(f));
    assert es + [DwellFires(f)] == [Connect(f), Upgrade(f), Intersect(f, true, false), DwellFires(f)];
    DwellAsksForTheTurn(Run(p, es), f);
  }

  lemma {:induction false} FreshPage(p: Page, f: nat)
    requires Initial(p) && f < |p.flows|
    ensures InRange(p) && p.holder == None && p.waiting == [] && p.starts == [] && !p.flows[f].played
  {
  }
}
