/** The page with its terminals: the turn protocol of `Turns` over the players of `Player`. What
    the protocol does to a flow's terminal is a call of that terminal, and every playback run
    wakes, writes and may throw between any two events of the page. */
module Stage {
  import opened Common
  import T = Turns
  import P = Player

  /** The turn and the flows, and each flow's terminal. */
  datatype Stage = Stage(page: T.Page, terms: seq<P.Terminal>)

  datatype Event =
    /** An event of the page; `cut` says where a run it begins throws, if it does. */
    | Happens(e: T.Event, cut: Option<nat>)
    /** Run `w` of the terminal in flow `f` wakes. */
    | Wakes(f: nat, w: nat, cut: Option<nat>)

  ghost predicate WellFormed(recs: seq<P.Recording>, s: Stage)
  {
    |s.terms| == |s.page.flows| == |recs| && T.InRange(s.page)
  }

  // ---------------------------------------------------------------------
  // Steps
  // ---------------------------------------------------------------------

  /** The call of its terminal, if any, that takes a flow from `b` to `a`. */
  function Call(b: T.Flow, a: T.Flow, cut: Option<nat>): Option<P.Event>
  {
    if !a.upgraded then None
    else if !b.upgraded then if a.connected then Some(P.Connect) else None
    else if a.run == b.run then if a.connected && !b.connected then Some(P.Connect) else None
    else if b.connected && !a.connected then Some(P.Disconnect)
    else if a.run in a.live then Some(P.Start(cut))
    else Some(P.Stop)
  }

  function Called(rec: P.Recording, t: P.Terminal, call: Option<P.Event>): P.Terminal
  {
    if call.None? then t else P.Step(rec, t, call.value)
  }

  function OnPage(recs: seq<P.Recording>, s: Stage, e: T.Event, cut: Option<nat>): (r: Stage)
    requires WellFormed(recs, s)
    ensures WellFormed(recs, r)
  {
    var q := T.Step(s.page, e);
    Stage(q, seq(|recs|, f requires 0 <= f < |recs| =>
                           Called(recs[f], s.terms[f], Call(s.page.flows[f], q.flows[f], cut))))
  }

  /** A run that returns ends for its flow, too. */
  function OnWakes(recs: seq<P.Recording>, s: Stage, f: nat, w: nat, cut: Option<nat>): (r: Stage)
    requires WellFormed(recs, s) && f < |recs| && P.Enabled(s.terms[f], P.Wake(w, cut))
    ensures WellFormed(recs, r)
  {
    var ended := s.terms[f].sessions[w].pc.Finishing?;
    Stage(if ended then T.Step(s.page, T.RunEnds(f, w)) else s.page,
          s.terms[f := P.Step(recs[f], s.terms[f], P.Wake(w, cut))])
  }

  function Step(recs: seq<P.Recording>, s: Stage, e: Event): (r: Stage)
    requires WellFormed(recs, s)
    ensures WellFormed(recs, r)
  {
    match e
    case Happens(pageEvent, cut) => if pageEvent.RunEnds? then s else OnPage(recs, s, pageEvent, cut)
    case Wakes(f, w, cut) =>
      if f < |recs| && P.Enabled(s.terms[f], P.Wake(w, cut)) then OnWakes(recs, s, f, w, cut) else s
  }

  function Run(recs: seq<P.Recording>, s: Stage, es: seq<Event>): (r: Stage)
    requires WellFormed(recs, s)
    ensures WellFormed(recs, r)
    decreases |es|
  {
    if es == [] then s else Run(recs, Step(recs, s, es[0]), es[1..])
  }

  /** A freshly loaded page. */
  ghost predicate Initial(recs: seq<P.Recording>, s: Stage)
  {
    && WellFormed(recs, s) && T.Initial(s.page)
    && forall f | 0 <= f < |recs| :: s.terms[f] == P.Rendered(recs[f])
  }

  /** The event begins a session under its flow's own settle timer. */
  predicate BeginsUnderSettle(s: Stage, e: Event)
  {
    e.Happens? && T.BeginsUnderSettle(s.page, e.e)
  }

  /** No event does. */
  ghost predicate Clean(recs: seq<P.Recording>, s: Stage, es: seq<Event>)
    requires WellFormed(recs, s)
    decreases |es|
  {
    es == [] || (!BeginsUnderSettle(s, es[0]) && Clean(recs, Step(recs, s, es[0]), es[1..]))
  }

  // ---------------------------------------------------------------------
  // What one event of the page does to one flow's terminal
  // ---------------------------------------------------------------------

  /** What the terminal in a flow has seen of it. */
  datatype Core = Core(connected: bool, upgraded: bool, run: nat, live: set<nat>)

  function CoreOf(flow: T.Flow): Core
  {
    Core(flow.connected, flow.upgraded, flow.run, flow.live)
  }

  /** Nothing, or one call: start, stop, connect, disconnect, or an upgrade. */
  ghost predicate Moves(b: Core, a: Core)
  {
    || a == b
    || (b.upgraded && a == b.(run := b.run + 1, live := b.live + {b.run + 1}))
    || (b.upgraded && a == b.(run := b.run + 1) && a.run !in a.live)
    || (!b.connected && a == b.(connected := true))
    || (b.connected && a == b.(connected := false, run := if b.upgraded then b.run + 1 else b.run))
    || (!b.upgraded && a == b.(upgraded := true))
  }

  /** The line is offered the turn: a flow is left alone, or it was waiting and is started. */
  lemma {:induction false} OfferMoves(p: T.Page, g: nat)
    requires T.InRange(p) && g < |p.flows|
    ensures LeftOrStarted(p, T.OfferTurn(p), g)
    decreases |p.waiting|
  {
    if p.holder.None? && p.waiting != [] {
      var next := p.waiting[0];
      if !T.CanTake(p.flows[next]) {
        OfferMoves(p.(waiting := p.waiting[1..]), g);
        assert p.(holder := Some(next), waiting := p.waiting[1..]).(holder := None) == p.(waiting := p.waiting[1..]);
      }
    }
  }

  ghost predicate LeftOrStarted(p: T.Page, q: T.Page, g: nat)
    requires g < |p.flows| == |q.flows|
  {
    || CoreOf(q.flows[g]) == CoreOf(p.flows[g])
    || (g in p.waiting && p.flows[g].upgraded && CoreOf(q.flows[g]) == CoreOf(p.flows[g].Started()))
  }

  lemma {:induction false} ReleaseMoves(p: T.Page, f: nat, g: nat)
    requires T.LooseAt(p, f) && g < |p.flows|
    ensures if g == f then CoreOf(T.Release(p, f).flows[f]) == CoreOf(p.flows[f])
            else LeftOrStarted(p, T.Release(p, f), g)
  {
    T.ReleaseKeeps(p, f);
    var left := p.With(f, p.flows[f].Disarmed()).(waiting := T.Without(p.waiting, f));
    hide T.OfferTurn, T.Without, T.QueueInv;
    OfferMoves(left.(holder := None), g);
  }

  lemma {:induction false} StandDownMoves(p: T.Page, f: nat, g: nat)
    requires T.LooseAt(p, f) && g < |p.flows|
    ensures if g == f then CoreOf(T.StandDown(p, f).flows[f]) == CoreOf(p.flows[f].Stopped())
            else LeftOrStarted(p, T.StandDown(p, f), g)
  {
    var stopped := p.With(f, p.flows[f].Stopped());
    forall h | 0 <= h < |p.flows| && h != f
      ensures T.FlowAt(stopped, h)
    {
      assert T.FlowAt(p, h);
    }
    hide T.Release;
    ReleaseMoves(stopped, f, g);
  }

  /** A run token nobody holds yet. */
  lemma {:induction false} NextIsFree(p: T.Page, g: nat)
    requires T.QueueInv(p) && g < |p.flows|
    ensures p.flows[g].run + 1 !in p.flows[g].live && !(p.holder == Some(g) && g in p.waiting)
  {
    assert T.FlowAt(p, g);
  }

  /** A claim leaves a flow alone, or stands it down for good. */
  lemma {:induction false} ClaimMoves(p: T.Page, f: nat, g: nat)
    requires T.QueueInv(p) && f < |p.flows| && g < |p.flows|
    ensures T.LooseAt(T.ClaimTurn(p, f), f)
    ensures var q := T.ClaimTurn(p, f);
            || CoreOf(q.flows[g]) == CoreOf(p.flows[g])
            || (g != f && g !in q.waiting && CoreOf(q.flows[g]) == CoreOf(p.flows[g].Stopped()))
  {
    NextIsFree(p, g);
    T.ClaimHandsTheTurnToNobodyElse(p, f);
    T.ClaimIsLoose(p, f);
    T.WithoutIs(p.waiting, f) by { assert T.QueueInv(p); }
    hide T.ClaimTurn, T.QueueInv, T.LooseAt, T.PlayOk, T.Without;
  }

  lemma {:induction false} ReplayMoves(p: T.Page, f: nat, g: nat)
    requires T.QueueInv(p) && f < |p.flows| && g < |p.flows|
    ensures Moves(CoreOf(p.flows[g]), CoreOf(T.OnReplay(p, f).flows[g]))
  {
    NextIsFree(p, g);
    ClaimMoves(p, f, g);
    var claimed := T.ClaimTurn(p, f);
    ReleaseMoves(claimed, f, g);
    hide T.ClaimTurn, T.Release, T.QueueInv, T.LooseAt;
  }

  lemma {:induction false} ReleaseWith(p: T.Page, f: nat, flow: T.Flow, g: nat)
    requires T.QueueInv(p) && f < |p.flows| && g < |p.flows|
    requires flow.Disarmed() == p.flows[f].Disarmed().(connected := flow.connected, onScreen := flow.onScreen)
    ensures var q := T.Release(p.With(f, flow), f);
            if g == f then CoreOf(q.flows[f]) == CoreOf(flow) else Moves(CoreOf(p.flows[g]), CoreOf(q.flows[g]))
  {
    T.QueueInvIsLoose(p, flow, f);
    hide T.Release, T.LooseAt, T.QueueInv;
    ReleaseMoves(p.With(f, flow), f, g);
  }

  lemma {:induction false} StandDownWith(p: T.Page, f: nat, flow: T.Flow, g: nat)
    requires T.QueueInv(p) && f < |p.flows| && g < |p.flows| && CoreOf(flow) == CoreOf(p.flows[f])
    requires flow.Disarmed() == p.flows[f].Disarmed().(connected := flow.connected, onScreen := flow.onScreen)
    ensures Moves(CoreOf(p.flows[g]), CoreOf(T.StandDown(p.With(f, flow), f).flows[g]))
  {
    T.QueueInvIsLoose(p, flow, f);
    NextIsFree(p, g);
    hide T.StandDown, T.LooseAt, T.QueueInv;
    StandDownMoves(p.With(f, flow), f, g);
  }

  lemma {:induction false} NoMove(core: Core)
    ensures Moves(core, core)
  {
  }

  /** The flow with what its observer has seen. */
  function Watched(flow: T.Flow, eligible: bool): T.Flow
  {
    if eligible == flow.onScreen then flow
    else if eligible then T.Arm(flow.(onScreen := true))
    else flow.(onScreen := false, dwell := false)
  }

  lemma {:induction false} WatchedKeepsCore(flow: T.Flow, eligible: bool)
    ensures var seen := Watched(flow, eligible);
            && CoreOf(seen) == CoreOf(flow)
            && seen.Disarmed() == flow.Disarmed().(connected := seen.connected, onScreen := seen.onScreen)
  {
  }

  lemma {:induction false} IntersectMoves(p: T.Page, f: nat, eligible: bool, gone: bool, g: nat)
    requires T.QueueInv(p) && f < |p.flows| && g < |p.flows|
    ensures Moves(CoreOf(p.flows[g]), CoreOf(T.OnIntersect(p, f, eligible, gone).flows[g]))
  {
    var seen := Watched(p.flows[f], eligible);
    WatchedKeepsCore(p.flows[f], eligible);
    NoMove(CoreOf(p.flows[g]));
    hide T.Release, T.StandDown, T.QueueInv, T.Arm, CoreOf, Moves, T.Flow.Disarmed;
    if !gone {
      assert T.OnIntersect(p, f, eligible, gone) == p.With(f, seen);
    } else if p.holder == Some(f) {
      StandDownWith(p, f, seen, g);
      assert T.OnIntersect(p, f, eligible, gone) == T.StandDown(p.With(f, seen), f);
    } else {
      ReleaseWith(p, f, seen, g);
      assert T.OnIntersect(p, f, eligible, gone) == T.Release(p.With(f, seen), f);
    }
  }

  lemma {:induction false} DwellMoves(p: T.Page, f: nat, g: nat)
    requires T.QueueInv(p) && f < |p.flows| && g < |p.flows|
    ensures var q := p.With(f, p.flows[f].(dwell := false));
            Moves(CoreOf(p.flows[g]), CoreOf(q.flows[g]))
            && Moves(CoreOf(p.flows[g]), CoreOf(T.JoinQueue(q, f).flows[g]))
  {
    var q := p.With(f, p.flows[f].(dwell := false));
    hide T.OfferTurn;
    OfferMoves(q.(waiting := q.waiting + [f]), g);
  }

  lemma {:induction false} DisconnectMoves(p: T.Page, f: nat, g: nat)
    requires T.QueueInv(p) && f < |p.flows| && g < |p.flows| && p.flows[f].connected
    ensures Moves(CoreOf(p.flows[g]), CoreOf(T.OnDisconnect(p, f).flows[g]))
  {
    hide T.Release, T.QueueInv;
    ReleaseWith(p, f, p.flows[f].(connected := false, onScreen := false), g);
  }

  /** One event of the page makes at most one call of any terminal. */
  lemma {:induction false} StepMoves(p: T.Page, e: T.Event, g: nat)
    requires T.QueueInv(p) && g < |p.flows| && !e.RunEnds?
    ensures Moves(CoreOf(p.flows[g]), CoreOf(T.Step(p, e).flows[g]))
  {
    hide T.OnIntersect, T.OnReplay, T.OnDisconnect, T.JoinQueue, T.Release, T.StandDown, T.QueueInv;
    if T.Enabled(p, e) {
      var flow := p.flows[e.f];
      match e {
        case Intersect(f, eligible, gone) => IntersectMoves(p, f, eligible, gone, g);
        case DwellFires(f) => DwellMoves(p, f, g);
        case SettleFires(f) => ReleaseWith(p, f, flow.(settle := false), g);
        case WatchdogFires(f) => StandDownWith(p, f, flow.(watchdog := false), g);
        case Replay(f) => ReplayMoves(p, f, g);
        case Disconnect(f) => DisconnectMoves(p, f, g);
        case Connect(f) =>
        case Upgrade(f) =>
      }
    }
  }

  // ---------------------------------------------------------------------
  // The protocol's view of a terminal is the terminal
  // ---------------------------------------------------------------------

  /** What the protocol keeps of the flow's terminal is what that terminal is like; one that has
      not been upgraded is still as the server rendered it. */
  ghost predicate Matches(rec: P.Recording, flow: T.Flow, t: P.Terminal)
  {
    && P.Inv(rec, t)
    && flow.run == t.run && flow.live == P.Live(t.sessions)
    && (if flow.upgraded then flow.connected == t.connected else t == P.Rendered(rec))
  }

  ghost predicate StageInv(recs: seq<P.Recording>, s: Stage)
  {
    && WellFormed(recs, s) && T.QueueInv(s.page)
    && forall f | 0 <= f < |recs| :: Matches(recs[f], s.page.flows[f], s.terms[f])
  }

  lemma {:induction false} RenderedIsDetached(rec: P.Recording)
    ensures var t := P.Rendered(rec);
            !t.connected && t.run == 0 && t.sessions == map[] && P.Live(t.sessions) == {}
  {
  }

  /** A terminal that has not been upgraded, or is being. */
  lemma {:induction false} UpgradeMatches(rec: P.Recording, b: T.Flow, a: T.Flow, t: P.Terminal, cut: Option<nat>)
    requires Matches(rec, b, t) && Moves(CoreOf(b), CoreOf(a)) && !b.upgraded
    ensures Matches(rec, a, Called(rec, t, Call(b, a, cut)))
  {
    hide P.Inv, P.Step, P.Live, P.Rendered;
    RenderedIsDetached(rec);
    if Call(b, a, cut).Some? {
      P.StepKeeps(rec, t, P.Connect);
      P.PlayerIsTheFlowsTerminal(rec, t, P.Connect, b);
    }
  }

  /** The call made of an upgraded terminal can be made of it. */
  lemma {:induction false} CallIsEnabled(rec: P.Recording, b: T.Flow, a: T.Flow, t: P.Terminal, cut: Option<nat>)
    requires Matches(rec, b, t) && Moves(CoreOf(b), CoreOf(a)) && b.upgraded
    ensures var call := Call(b, a, cut);
            a.upgraded && (call.Some? ==> P.Enabled(t, call.value) && !call.value.Wake?)
  {
    hide P.Inv, P.Live, P.Rendered;
  }

  /** What a call leaves of the terminal, as the protocol sees it. */
  lemma {:induction false} CallDoes(rec: P.Recording, t: P.Terminal, call: P.Event, flow: T.Flow)
    requires P.Inv(rec, t) && P.Enabled(t, call) && !call.Wake?
    ensures var u := P.Step(rec, t, call);
            && P.Inv(rec, u)
            && u.run == (if call.Connect? then t.run else t.run + 1)
            && u.connected == (if call.Connect? then true else if call.Disconnect? then false else t.connected)
            && P.Live(u.sessions) == if call.Start? then P.Live(t.sessions) + {t.run + 1} else P.Live(t.sessions)
  {
    hide P.Inv, P.Step, P.Live;
    P.StepKeeps(rec, t, call);
    P.PlayerIsTheFlowsTerminal(rec, t, call, flow.(upgraded := true));
  }

  lemma {:induction false} CallMatches(rec: P.Recording, b: T.Flow, a: T.Flow, t: P.Terminal, cut: Option<nat>)
    requires Matches(rec, b, t) && Moves(CoreOf(b), CoreOf(a)) && b.run + 1 !in b.live
    ensures Matches(rec, a, Called(rec, t, Call(b, a, cut)))
  {
    if !b.upgraded {
      UpgradeMatches(rec, b, a, t, cut);
    } else {
      var call := Call(b, a, cut);
      CallIsEnabled(rec, b, a, t, cut);
      if call.Some? {
        CallDoes(rec, t, call.value, b);
      }
      hide P.Inv, P.Step, P.Live, P.Rendered, P.Enabled;
    }
  }

  lemma {:induction false} PageKeeps(recs: seq<P.Recording>, s: Stage, e: T.Event, cut: Option<nat>)
    requires StageInv(recs, s) && !e.RunEnds?
    ensures StageInv(recs, OnPage(recs, s, e, cut))
  {
    hide T.Step, T.QueueInv, Matches, Moves, Called, Call;
    var r := OnPage(recs, s, e, cut);
    T.StepKeeps(s.page, e);
    forall f | 0 <= f < |recs|
      ensures Matches(recs[f], r.page.flows[f], r.terms[f])
    {
      NextIsFree(s.page, f);
      StepMoves(s.page, e, f);
      CallMatches(recs[f], s.page.flows[f], r.page.flows[f], s.terms[f], cut);
    }
  }

  /** The end of a run changes that one flow, and of its terminal only what has not finished. */
  lemma {:induction false} RunEndsAt(p: T.Page, f: nat, w: nat)
    requires T.InRange(p) && f < |p.flows| && w in p.flows[f].live
    ensures var q := T.Step(p, T.RunEnds(f, w));
            && CoreOf(q.flows[f]) == CoreOf(p.flows[f].(live := p.flows[f].live - {w}))
            && forall g | 0 <= g < |p.flows| && g != f :: q.flows[g] == p.flows[g]
  {
  }

  lemma {:induction false} WakeMatches(rec: P.Recording, flow: T.Flow, t: P.Terminal, w: nat, cut: Option<nat>)
    requires Matches(rec, flow, t) && P.Enabled(t, P.Wake(w, cut))
    ensures flow.upgraded && w in flow.live
    ensures var u := P.Step(rec, t, P.Wake(w, cut));
            && P.Inv(rec, u) && flow.run == u.run && flow.connected == u.connected
            && P.Live(u.sessions) == if t.sessions[w].pc.Finishing? then flow.live - {w} else flow.live
  {
    hide P.Inv, P.Step;
    RenderedIsDetached(rec);
    P.StepKeeps(rec, t, P.Wake(w, cut));
    P.PlayerIsTheFlowsTerminal(rec, t, P.Wake(w, cut), flow);
  }

  lemma {:induction false} WakeKeeps(recs: seq<P.Recording>, s: Stage, f: nat, w: nat, cut: Option<nat>)
    requires StageInv(recs, s) && f < |recs| && P.Enabled(s.terms[f], P.Wake(w, cut))
    ensures StageInv(recs, OnWakes(recs, s, f, w, cut))
  {
    hide T.Step, T.QueueInv, P.Step, P.Inv, P.Live, P.Enabled;
    var r := OnWakes(recs, s, f, w, cut);
    T.StepKeeps(s.page, T.RunEnds(f, w));
    WakeMatches(recs[f], s.page.flows[f], s.terms[f], w, cut);
    RunEndsAt(s.page, f, w);
    forall g | 0 <= g < |recs|
      ensures Matches(recs[g], r.page.flows[g], r.terms[g])
    {
      assert Matches(recs[g], s.page.flows[g], s.terms[g]);
    }
  }

  /** One event keeps every terminal as the protocol takes it to be, and exclusion with it. */
  lemma {:induction false} StepKeeps(recs: seq<P.Recording>, s: Stage, e: Event)
    requires StageInv(recs, s)
    ensures StageInv(recs, Step(recs, s, e))
    ensures T.PlayInv(s.page) && !BeginsUnderSettle(s, e) ==> T.PlayInv(Step(recs, s, e).page)
  {
    hide T.Step, T.QueueInv, T.PlayInv, Matches, P.Step, P.Enabled;
    match e {
      case Happens(pageEvent, cut) =>
        T.StepKeeps(s.page, pageEvent);
        if !pageEvent.RunEnds? {
          PageKeeps(recs, s, pageEvent, cut);
        }
      case Wakes(f, w, cut) =>
        if f < |recs| && P.Enabled(s.terms[f], P.Wake(w, cut)) {
          WakeKeeps(recs, s, f, w, cut);
          T.StepKeeps(s.page, T.RunEnds(f, w));
        }
    }
  }

  lemma {:induction false} RunKeeps(recs: seq<P.Recording>, s: Stage, es: seq<Event>)
    requires StageInv(recs, s)
    ensures StageInv(recs, Run(recs, s, es))
    ensures T.PlayInv(s.page) && Clean(recs, s, es) ==> T.PlayInv(Run(recs, s, es).page)
    decreases |es|
  {
    hide Step, T.QueueInv, T.PlayInv, Matches, BeginsUnderSettle;
    if es != [] {
      StepKeeps(recs, s, es[0]);
      RunKeeps(recs, Step(recs, s, es[0]), es[1..]);
    }
  }

  lemma {:induction false} InitialIsInOrder(recs: seq<P.Recording>, s: Stage)
    requires Initial(recs, s)
    ensures StageInv(recs, s) && T.PlayInv(s.page)
  {
    T.InitialIsInOrder(s.page);
    hide T.QueueInv, T.PlayInv, P.Inv, P.Live;
    forall f | 0 <= f < |recs|
      ensures Matches(recs[f], s.page.flows[f], s.terms[f])
    {
      RenderedIsDetached(recs[f]);
      P.RenderedIsInOrder(recs[f]);
    }
  }

  // ---------------------------------------------------------------------
  // Whole pages
  // ---------------------------------------------------------------------

  /** The terminal's current run has not finished. */
  predicate Playing(t: P.Terminal)
  {
    t.run in P.Live(t.sessions)
  }

  /** In every run of a page that begins no session under its flow's own settle timer, however
      the playback runs of its terminals wake, throw and overlap: a terminal whose current run
      has not finished is the turn holder's, so two of them are one. */
  lemma {:induction false} AtMostOneTerminalPlays(recs: seq<P.Recording>, s: Stage, es: seq<Event>, f: nat, g: nat)
    requires Initial(recs, s) && Clean(recs, s, es) && f < |recs| && g < |recs|
    requires Playing(Run(recs, s, es).terms[f]) && Playing(Run(recs, s, es).terms[g])
    ensures f == g && Run(recs, s, es).page.holder == Some(f)
  {
    InitialIsInOrder(recs, s);
    RunKeeps(recs, s, es);
    var r := Run(recs, s, es);
    hide Run, P.Inv, P.Live, T.QueueInv, Clean;
    assert Matches(recs[f], r.page.flows[f], r.terms[f]) && Matches(recs[g], r.page.flows[g], r.terms[g]);
    assert T.PlayOk(r.page, f) && T.PlayOk(r.page, g);
  }

  /** What a playback run writes, it writes as its terminal's current run, and unfinished. */
  lemma {:induction false} WritersPlay(rec: P.Recording, t: P.Terminal, e: P.Event, k: nat)
    requires P.Inv(rec, t)
    requires |t.log| <= k < |P.Step(rec, t, e).log| && P.Step(rec, t, e).log[k].writer.Some?
    ensures Playing(P.Step(rec, t, e))
  {
    hide P.Inv, P.Opening, P.Segment, P.ApplyAll, P.Restored;
    if P.Enabled(t, e) {
      match e {
        case Start(cut) =>
          P.OpeningIsNotOver(rec, t.captured);
        case Wake(w, cut) =>
          if P.Parked(t.sessions[w].pc) {
            P.SegmentIsNotOver(rec, t.sessions[w].pc, t.run == w);
            P.SupersededRunsLeave(rec, t.sessions[w].pc);
          }
        case _ =>
      }
    }
  }

  lemma {:induction false} CleanSnoc(recs: seq<P.Recording>, s: Stage, es: seq<Event>, e: Event)
    requires WellFormed(recs, s)
    ensures Clean(recs, s, es + [e]) <==> Clean(recs, s, es) && !BeginsUnderSettle(Run(recs, s, es), e)
    decreases |es|
  {
    hide Step, BeginsUnderSettle;
    if es == [] {
      assert es + [e] == [e] && [e][1..] == [];
    } else {
      assert (es + [e])[1..] == es[1..] + [e];
      CleanSnoc(recs, Step(recs, s, es[0]), es[1..], e);
    }
  }

  /** A terminal whose log grows took one step of its own. */
  lemma {:induction false} LogsGrowByCalls(recs: seq<P.Recording>, s: Stage, e: Event, g: nat) returns (own: P.Event)
    requires WellFormed(recs, s) && g < |recs| && Step(recs, s, e).terms[g] != s.terms[g]
    ensures Step(recs, s, e).terms[g] == P.Step(recs[g], s.terms[g], own)
  {
    hide T.Step, P.Step;
    match e {
      case Happens(pageEvent, cut) =>
        own := Call(s.page.flows[g], Step(recs, s, e).page.flows[g], cut).value;
      case Wakes(f, w, cut) =>
        own := P.Wake(w, cut);
    }
  }

  /** And in such a run, whatever any playback run on the page writes or announces, it does while
      its flow holds the turn. */
  lemma {:induction false} OnlyTheHolderIsWrittenTo(recs: seq<P.Recording>, s: Stage, es: seq<Event>, e: Event,
                                                    g: nat, k: nat)
    requires Initial(recs, s) && Clean(recs, s, es + [e]) && g < |recs|
    requires var before, after := Run(recs, s, es), Step(recs, Run(recs, s, es), e);
             |before.terms[g].log| <= k < |after.terms[g].log| && after.terms[g].log[k].writer.Some?
    ensures Step(recs, Run(recs, s, es), e).page.holder == Some(g)
  {
    InitialIsInOrder(recs, s);
    CleanSnoc(recs, s, es, e);
    RunKeeps(recs, s, es);
    var before := Run(recs, s, es);
    StepKeeps(recs, before, e);
    var after := Step(recs, before, e);
    var own := LogsGrowByCalls(recs, before, e, g);
    hide Run, Step, P.Step, P.Inv, P.Live, T.QueueInv, Clean;
    assert Matches(recs[g], before.page.flows[g], before.terms[g]);
    WritersPlay(recs[g], before.terms[g], own, k);
    assert Matches(recs[g], after.page.flows[g], after.terms[g]);
    assert T.PlayOk(after.page, g);
  }
}
