/** The turn-taking protocol of docs-site/components/ui/secreq-flow-element.ts: every event as
    one step of a page, and what holds between events. */
module Turns {
  import opened Common

  /** One `<secreq-flow>` and as much of the terminal inside it as decides who is playing. */
  datatype Flow = Flow(
    connected: bool,
    /** The terminal inside has been upgraded, so it can be started. */
    upgraded: bool,
    onScreen: bool,
    played: bool,
    /** The three timers, armed or not. */
    watchdog: bool,
    settle: bool,
    dwell: bool,
    /** The terminal's run token, and the playback runs that have not finished. */
    run: nat,
    live: set<nat>)
  {
    /** The terminal's current run has not finished. */
    predicate Playing() { run in live }

    function Started(): Flow { this.(played := true, watchdog := true, run := run + 1, live := live + {run + 1}) }

    function Stopped(): Flow { if upgraded then this.(run := run + 1) else this }

    function Disarmed(): Flow { this.(dwell := false, watchdog := false, settle := false) }
  }

  /** A session begun: by the queue handing over the turn, or by Replay. */
  datatype Start = Start(flow: nat, byQueue: bool)

  /** The page: the turn holder, the queue, the flows, and the sessions begun so far. */
  datatype Page = Page(holder: Option<nat>, waiting: seq<nat>, flows: seq<Flow>, starts: seq<Start>) {
    function With(f: nat, flow: Flow): Page
      requires f < |flows|
    {
      this.(flows := flows[f := flow])
    }
  }

  predicate InRange(p: Page)
  {
    && (p.holder.Some? ==> p.holder.value < |p.flows|)
    && forall k | 0 <= k < |p.waiting| :: p.waiting[k] < |p.flows|
  }

  // ---------------------------------------------------------------------
  // The operations
  // ---------------------------------------------------------------------

  /** `s` without the first occurrence of `x`. */
  function Without(s: seq<nat>, x: nat): (r: seq<nat>)
    ensures forall k | 0 <= k < |r| :: r[k] in s
  {
    if s == [] then [] else if s[0] == x then s[1..] else [s[0]] + Without(s[1..], x)
  }

  predicate CanTake(flow: Flow)
  {
    flow.onScreen && flow.upgraded
  }

  /** `#begin` on a flow whose terminal is there to start. */
  function Begun(p: Page, f: nat, byQueue: bool): Page
    requires f < |p.flows|
  {
    p.With(f, p.flows[f].Started()).(starts := p.starts + [Start(f, byQueue)])
  }

  /** `offerTurn`: down the line until a flow takes it. */
  function OfferTurn(p: Page): (q: Page)
    requires InRange(p)
    ensures InRange(q) && |q.flows| == |p.flows|
    decreases |p.waiting|
  {
    if p.holder.Some? || p.waiting == [] then p
    else
      var next := p.waiting[0];
      var called := p.(holder := Some(next), waiting := p.waiting[1..]);
      if CanTake(p.flows[next]) then Begun(called, next, true)
      else OfferTurn(called.(holder := None))
  }

  function JoinQueue(p: Page, f: nat): (q: Page)
    requires InRange(p) && f < |p.flows|
    ensures InRange(q) && |q.flows| == |p.flows|
  {
    if p.holder == Some(f) || f in p.waiting then p
    else OfferTurn(p.(waiting := p.waiting + [f]))
  }

  function LeaveQueue(p: Page, f: nat): (q: Page)
    requires InRange(p) && f < |p.flows|
    ensures InRange(q) && |q.flows| == |p.flows|
  {
    var left := p.(waiting := Without(p.waiting, f));
    if p.holder != Some(f) then left else OfferTurn(left.(holder := None))
  }

  /** `#release`: disarm every timer, then leave. */
  function Release(p: Page, f: nat): (q: Page)
    requires InRange(p) && f < |p.flows|
    ensures InRange(q) && |q.flows| == |p.flows|
  {
    LeaveQueue(p.With(f, p.flows[f].Disarmed()), f)
  }

  function StandDown(p: Page, f: nat): (q: Page)
    requires InRange(p) && f < |p.flows|
    ensures InRange(q) && |q.flows| == |p.flows|
  {
    Release(p.With(f, p.flows[f].Stopped()), f)
  }

  /** `claimTurn`: stake the claim, then stand the incumbent down. */
  function ClaimTurn(p: Page, f: nat): (q: Page)
    requires InRange(p) && f < |p.flows|
    ensures InRange(q) && |q.flows| == |p.flows|
  {
    var claimed := p.(holder := Some(f), waiting := Without(p.waiting, f));
    if p.holder.Some? && p.holder != Some(f) then StandDown(claimed, p.holder.value) else claimed
  }

  function Arm(flow: Flow): Flow
  {
    if flow.dwell || flow.played then flow else flow.(dwell := true)
  }

  // ---------------------------------------------------------------------
  // Events
  // ---------------------------------------------------------------------

  datatype Event =
    | Connect(f: nat)
    /** The flow and the terminal in it leave the document together. */
    | Disconnect(f: nat)
    | Upgrade(f: nat)
    /** One intersection entry: half in view or not, entirely gone or not. */
    | Intersect(f: nat, eligible: bool, gone: bool)
    | DwellFires(f: nat)
    | SettleFires(f: nat)
    | WatchdogFires(f: nat)
    | Replay(f: nat)
    /** An asynchronous playback run returns, by finishing, by seeing itself superseded, or
        by throwing. */
    | RunEnds(f: nat, token: nat)

  /** The event can happen: timers fire only while armed, and a detached flow hears nothing. */
  predicate Enabled(p: Page, e: Event)
  {
    && e.f < |p.flows|
    && var flow := p.flows[e.f];
       match e
       case Connect(_) => !flow.connected
       case Disconnect(_) => flow.connected
       case Upgrade(_) => true
       case Intersect(_, _, _) => flow.connected
       case DwellFires(_) => flow.dwell
       case SettleFires(_) => flow.settle
       case WatchdogFires(_) => flow.watchdog
       case Replay(_) => flow.connected
       case RunEnds(_, token) => token in flow.live
  }

  function OnIntersect(p: Page, f: nat, eligible: bool, gone: bool): (q: Page)
    requires InRange(p) && f < |p.flows|
    ensures InRange(q) && |q.flows| == |p.flows|
  {
    var flow := p.flows[f];
    var seen := if eligible == flow.onScreen then flow
                else if eligible then Arm(flow.(onScreen := true))
                else flow.(onScreen := false, dwell := false);
    var q := p.With(f, seen);
    if !gone then q else if q.holder == Some(f) then StandDown(q, f) else Release(q, f)
  }

  function OnReplay(p: Page, f: nat): (q: Page)
    requires InRange(p) && f < |p.flows|
    ensures InRange(q) && |q.flows| == |p.flows|
  {
    var claimed := ClaimTurn(p, f);
    if claimed.flows[f].upgraded then Begun(claimed, f, false) else Release(claimed, f)
  }

  /** `#announceEnd` and, when it announces, `#onEnd`. */
  function OnRunEnds(p: Page, f: nat, token: nat): (q: Page)
    requires InRange(p) && f < |p.flows|
    ensures InRange(q) && |q.flows| == |p.flows|
  {
    var flow := p.flows[f];
    var ended := flow.(live := flow.live - {token});
    if token == flow.run && flow.connected && p.holder == Some(f) then p.With(f, ended.(settle := true))
    else p.With(f, ended)
  }

  function OnDisconnect(p: Page, f: nat): (q: Page)
    requires InRange(p) && f < |p.flows|
    ensures InRange(q) && |q.flows| == |p.flows|
  {
    var q := Release(p.With(f, p.flows[f].(connected := false, onScreen := false)), f);
    q.With(f, q.flows[f].Stopped())
  }

  function Step(p: Page, e: Event): (q: Page)
    requires InRange(p)
    ensures InRange(q) && |q.flows| == |p.flows|
  {
    if !Enabled(p, e) then p
    else
      var flow := p.flows[e.f];
      match e
      case Connect(f) => p.With(f, flow.(connected := true))
      case Disconnect(f) => OnDisconnect(p, f)
      case Upgrade(f) => p.With(f, flow.(upgraded := true))
      case Intersect(f, eligible, gone) => OnIntersect(p, f, eligible, gone)
      case DwellFires(f) =>
        var q := p.With(f, flow.(dwell := false));
        if flow.played then q else JoinQueue(q, f)
      case SettleFires(f) => Release(p.With(f, flow.(settle := false)), f)
      case WatchdogFires(f) => StandDown(p.With(f, flow.(watchdog := false)), f)
      case Replay(f) => OnReplay(p, f)
      case RunEnds(f, token) => OnRunEnds(p, f, token)
  }

  function Run(p: Page, es: seq<Event>): (q: Page)
    requires InRange(p)
    ensures InRange(q) && |q.flows| == |p.flows|
    decreases |es|
  {
    if es == [] then p else Run(Step(p, es[0]), es[1..])
  }

  /** A freshly loaded page. */
  predicate Initial(p: Page)
  {
    && p.holder == None && p.waiting == [] && p.starts == []
    && forall f | 0 <= f < |p.flows| ::
         p.flows[f] == Flow(false, p.flows[f].upgraded, false, false, false, false, false, 0, {})
  }

  // ---------------------------------------------------------------------
  // The queue invariant: every run keeps it
  // ---------------------------------------------------------------------

  /** How often the queue has started `f`. */
  ghost function AutoStarts(starts: seq<Start>, f: nat): nat
  {
    if starts == [] then 0
    else AutoStarts(starts[..|starts| - 1], f) + if starts[|starts| - 1] == Start(f, true) then 1 else 0
  }

  /** What one flow may look like between events, given its part in the queue. */
  ghost predicate FlowOk(flow: Flow, holds: bool, waits: bool, autoStarts: nat)
  {
    && !(holds && waits)
    && (waits ==> !flow.played && flow.connected)
    && (holds ==> flow.watchdog && flow.played && flow.connected)
    && (flow.watchdog || flow.settle ==> holds)
    && (flow.dwell ==> flow.connected)
    && (autoStarts <= 1 && (autoStarts == 1 ==> flow.played))
    && (forall t | t in flow.live :: t <= flow.run)
    && (!flow.upgraded ==> flow.live == {})
  }

  ghost predicate FlowAt(p: Page, f: nat)
    requires f < |p.flows|
  {
    FlowOk(p.flows[f], p.holder == Some(f), f in p.waiting, AutoStarts(p.starts, f))
  }

  ghost predicate QueueInv(p: Page)
  {
    && InRange(p) && Distinct(p.waiting)
    && (p.holder == None ==> p.waiting == [])
    && forall f | 0 <= f < |p.flows| :: FlowAt(p, f)
  }

  // ---------------------------------------------------------------------
  // At most one flow plays
  // ---------------------------------------------------------------------

  /** A terminal with an unfinished current run belongs to the turn holder. */
  ghost predicate Exclusive(p: Page)
  {
    forall f | 0 <= f < |p.flows| && p.flows[f].Playing() :: p.holder == Some(f)
  }

  /** A session in progress is the holder's, and no settle timer runs under it. */
  ghost predicate PlayOk(p: Page, f: nat)
    requires f < |p.flows|
  {
    p.flows[f].Playing() ==> p.holder == Some(f) && !p.flows[f].settle
  }

  ghost predicate PlayInv(p: Page)
  {
    forall f | 0 <= f < |p.flows| :: PlayOk(p, f)
  }

  /** Replay pressed on a flow whose settle timer is pending: `#begin` starts a session that
      timer will take the turn from. */
  predicate BeginsUnderSettle(p: Page, e: Event)
  {
    && Enabled(p, e) && e.Replay?
    && p.flows[e.f].settle && p.flows[e.f].upgraded
  }

  ghost predicate Clean(p: Page, es: seq<Event>)
    requires InRange(p)
    decreases |es|
  {
    es == [] || (!BeginsUnderSettle(p, es[0]) && Clean(Step(p, es[0]), es[1..]))
  }

  // ---------------------------------------------------------------------
  // Proofs
  // ---------------------------------------------------------------------

  lemma {:induction false} WithoutIs(s: seq<nat>, x: nat)
    requires Distinct(s)
    ensures Distinct(Without(s, x))
    ensures forall y :: y in Without(s, x) <==> y in s && y != x
    ensures x !in s ==> Without(s, x) == s
  {
    if s != [] {
      assert s == [s[0]] + s[1..];
      assert forall k | 0 < k < |s| :: s[0] != s[k];
      assert s[0] !in s[1..];
      WithoutIs(s[1..], x);
    }
  }

  lemma {:induction false} AutoStartsSnoc(starts: seq<Start>, s: Start, f: nat)
    ensures AutoStarts(starts + [s], f) == AutoStarts(starts, f) + if s == Start(f, true) then 1 else 0
  {
    assert (starts + [s])[..|starts|] == starts;
  }

  /** Between `offerTurn`'s iterations: no holder, and everything else in order. */
  ghost predicate Offering(p: Page)
  {
    && InRange(p) && Distinct(p.waiting) && p.holder == None
    && forall f | 0 <= f < |p.flows| :: FlowAt(p, f)
  }

  lemma {:induction false} BegunKeeps(p: Page, f: nat, byQueue: bool)
    requires InRange(p) && f < |p.flows| && p.holder == Some(f) && f !in p.waiting && Distinct(p.waiting)
    requires p.flows[f].connected && p.flows[f].upgraded && (byQueue ==> !p.flows[f].played)
    requires forall g | 0 <= g < |p.flows| && g != f :: FlowAt(p, g)
    requires FlowOk(p.flows[f].Disarmed(), false, false, AutoStarts(p.starts, f))
    ensures QueueInv(Begun(p, f, byQueue))
  {
    hide AutoStarts;
    var q := Begun(p, f, byQueue);
    forall g | 0 <= g < |q.flows|
      ensures FlowAt(q, g)
    {
      AutoStartsSnoc(p.starts, Start(f, byQueue), g);
      assert g != f ==> FlowAt(p, g);
    }
  }

  lemma {:induction false} OfferKeeps(p: Page)
    requires Offering(p)
    ensures QueueInv(OfferTurn(p))
    ensures forall g | 0 <= g < |p.flows| && PlayOk(p, g) :: PlayOk(OfferTurn(p), g)
    ensures forall g | 0 <= g < |p.flows| && g !in p.waiting ::
              OfferTurn(p).flows[g] == p.flows[g] && OfferTurn(p).holder != Some(g) && g !in OfferTurn(p).waiting
    decreases |p.waiting|
  {
    if p.waiting != [] {
      var next := p.waiting[0];
      assert next in p.waiting && FlowAt(p, next);
      var called := p.(holder := Some(next), waiting := p.waiting[1..]);
      assert p.waiting == [next] + p.waiting[1..];
      assert forall k | 0 < k < |p.waiting| :: p.waiting[0] != p.waiting[k];
      assert next !in called.waiting;
      forall g | 0 <= g < |p.flows| && g != next
        ensures FlowAt(called, g) && FlowAt(called.(holder := None), g)
      {
        assert FlowAt(p, g);
      }
      if CanTake(p.flows[next]) {
        BegunKeeps(called, next, true);
      } else {
        OfferKeeps(called.(holder := None));
      }
    }
  }

  /** `offerTurn` drops exactly the flows that decline and stops at the first that accepts. */
  lemma {:induction false} OfferStopsAtTheFirstTaker(p: Page, k: nat)
    requires InRange(p) && p.holder == None && k <= |p.waiting|
    requires forall j | 0 <= j < k :: !CanTake(p.flows[p.waiting[j]])
    requires k < |p.waiting| ==> CanTake(p.flows[p.waiting[k]])
    ensures k == |p.waiting| ==> OfferTurn(p) == p.(waiting := [])
    ensures k < |p.waiting| ==>
              OfferTurn(p) == Begun(p.(holder := Some(p.waiting[k]), waiting := p.waiting[k + 1..]), p.waiting[k], true)
    decreases k
  {
    if p.waiting != [] && k > 0 {
      var rest := p.(waiting := p.waiting[1..]);
      assert forall j | 0 <= j < |rest.waiting| :: rest.waiting[j] == p.waiting[j + 1];
      OfferStopsAtTheFirstTaker(rest, k - 1);
      if k < |p.waiting| {
        assert rest.waiting[k - 1 + 1..] == p.waiting[k + 1..];
      }
    }
  }

  /** Everything is in order except, perhaps, `f`'s timers and `f`'s claim to the turn. */
  ghost predicate LooseAt(p: Page, f: nat)
  {
    && InRange(p) && Distinct(p.waiting) && f < |p.flows|
    && (p.holder == None ==> p.waiting == [])
    && (forall g | 0 <= g < |p.flows| && g != f :: FlowAt(p, g))
    && FlowOk(p.flows[f].Disarmed(), false, false, AutoStarts(p.starts, f))
  }

  lemma {:induction false} ReleaseKeeps(p: Page, f: nat)
    requires LooseAt(p, f)
    ensures var q := Release(p, f);
            && QueueInv(q) && q.holder != Some(f) && f !in q.waiting
            && q.flows[f] == p.flows[f].Disarmed()
            && forall g | 0 <= g < |p.flows| && g != f && PlayOk(p, g) :: PlayOk(q, g)
  {
    var d := p.With(f, p.flows[f].Disarmed());
    WithoutIs(p.waiting, f);
    var left := d.(waiting := Without(d.waiting, f));
    forall g | 0 <= g < |p.flows| && g != f
      ensures FlowAt(left, g) && (p.holder == Some(f) ==> FlowAt(left.(holder := None), g))
    {
      assert FlowAt(p, g);
    }
    if p.holder == Some(f) {
      OfferKeeps(left.(holder := None));
      forall g | 0 <= g < |p.flows| && g != f && PlayOk(p, g)
        ensures PlayOk(Release(p, f), g)
      {
        assert PlayOk(left.(holder := None), g);
      }
    }
  }

  /** The terminal's current run is over once it is stopped. */
  lemma {:induction false} StandDownKeeps(p: Page, f: nat)
    requires LooseAt(p, f)
    ensures var q := StandDown(p, f);
            && QueueInv(q) && q.holder != Some(f) && f !in q.waiting
            && q.flows[f] == p.flows[f].Stopped().Disarmed() && PlayOk(q, f)
            && forall g | 0 <= g < |p.flows| && g != f && PlayOk(p, g) :: PlayOk(q, g)
  {
    var stopped := p.With(f, p.flows[f].Stopped());
    forall g | 0 <= g < |p.flows| && g != f
      ensures FlowAt(stopped, g) && (PlayOk(p, g) ==> PlayOk(stopped, g))
    {
      assert FlowAt(p, g);
    }
    ReleaseKeeps(stopped, f);
  }

  /** `claimTurn` takes the turn from whoever has it and from nobody else: no waiting flow is
      started, and the queue loses only the claimant. */
  lemma {:induction false} ClaimHandsTheTurnToNobodyElse(p: Page, f: nat)
    requires QueueInv(p) && f < |p.flows|
    ensures var q := ClaimTurn(p, f);
            && q.holder == Some(f) && q.starts == p.starts && q.waiting == Without(p.waiting, f)
            && (forall g | 0 <= g < |p.flows| && p.holder != Some(g) :: q.flows[g] == p.flows[g])
            && q.flows[f] == p.flows[f]
            && (p.holder.Some? && p.holder != Some(f) ==>
                  q.flows[p.holder.value] == p.flows[p.holder.value].Stopped().Disarmed())
  {
    WithoutIs(p.waiting, f);
    if p.holder.Some? && p.holder != Some(f) {
      var h := p.holder.value;
      assert FlowAt(p, h);
      WithoutIs(Without(p.waiting, f), h);
    }
  }

  lemma {:induction false} ClaimIsLoose(p: Page, f: nat)
    requires QueueInv(p) && f < |p.flows|
    ensures LooseAt(ClaimTurn(p, f), f)
    ensures forall g | 0 <= g < |p.flows| && g != f && PlayInv(p) :: PlayOk(ClaimTurn(p, f), g)
    ensures f !in ClaimTurn(p, f).waiting
  {
    ClaimHandsTheTurnToNobodyElse(p, f);
    var q := ClaimTurn(p, f);
    WithoutIs(p.waiting, f);
    assert FlowAt(p, f);
    forall g | 0 <= g < |p.flows| && g != f
      ensures FlowAt(q, g) && (PlayInv(p) ==> PlayOk(q, g))
    {
      assert FlowAt(p, g) && (PlayInv(p) ==> PlayOk(p, g));
    }
  }

  lemma {:induction false} QueueInvIsLoose(p: Page, flow: Flow, f: nat)
    requires QueueInv(p) && f < |p.flows|
    requires flow.Disarmed() == p.flows[f].Disarmed().(connected := flow.connected, onScreen := flow.onScreen)
    ensures LooseAt(p.With(f, flow), f)
    ensures forall g | 0 <= g < |p.flows| && g != f && PlayOk(p, g) :: PlayOk(p.With(f, flow), g)
  {
    assert FlowAt(p, f);
    forall g | 0 <= g < |p.flows| && g != f
      ensures FlowAt(p.With(f, flow), g)
    {
      assert FlowAt(p, g);
    }
  }

  /** Changing one flow's record within the rules keeps the page within them. */
  lemma {:induction false} WithKeeps(p: Page, f: nat, flow: Flow)
    requires QueueInv(p) && f < |p.flows|
    requires FlowOk(flow, p.holder == Some(f), f in p.waiting, AutoStarts(p.starts, f))
    ensures QueueInv(p.With(f, flow))
    ensures PlayInv(p) && (flow.Playing() ==> p.holder == Some(f) && !flow.settle) ==> PlayInv(p.With(f, flow))
  {
    forall g | 0 <= g < |p.flows|
      ensures FlowAt(p.With(f, flow), g)
    {
      assert FlowAt(p, g);
    }
    if PlayInv(p) && (flow.Playing() ==> p.holder == Some(f) && !flow.settle) {
      forall g | 0 <= g < |p.flows|
        ensures PlayOk(p.With(f, flow), g)
      {
        assert PlayOk(p, g);
      }
    }
  }

  lemma {:induction false} JoinKeeps(p: Page, f: nat)
    requires QueueInv(p) && f < |p.flows| && p.flows[f].connected && !p.flows[f].played
    ensures QueueInv(JoinQueue(p, f))
    ensures PlayInv(p) ==> PlayInv(JoinQueue(p, f))
  {
    if p.holder != Some(f) && f !in p.waiting {
      var joined := p.(waiting := p.waiting + [f]);
      forall g | 0 <= g < |p.flows|
        ensures FlowAt(joined, g) && (PlayOk(p, g) ==> PlayOk(joined, g))
      {
        assert FlowAt(p, g);
      }
      if p.holder == None {
        OfferKeeps(joined);
      }
    }
  }

  lemma {:induction false} StandDownStep(p: Page, flow: Flow, f: nat)
    requires QueueInv(p) && f < |p.flows|
    requires flow.Disarmed() == p.flows[f].Disarmed().(connected := flow.connected, onScreen := flow.onScreen)
    ensures QueueInv(StandDown(p.With(f, flow), f))
    ensures PlayInv(p) ==> PlayInv(StandDown(p.With(f, flow), f))
  {
    QueueInvIsLoose(p, flow, f);
    StandDownKeeps(p.With(f, flow), f);
  }

  lemma {:induction false} ReleaseStep(p: Page, flow: Flow, f: nat)
    requires QueueInv(p) && f < |p.flows|
    requires flow.Disarmed() == p.flows[f].Disarmed().(connected := flow.connected, onScreen := flow.onScreen)
    ensures QueueInv(Release(p.With(f, flow), f))
    ensures PlayInv(p) && !flow.Playing() ==> PlayInv(Release(p.With(f, flow), f))
  {
    QueueInvIsLoose(p, flow, f);
    ReleaseKeeps(p.With(f, flow), f);
  }

  lemma {:induction false} IntersectKeeps(p: Page, f: nat, eligible: bool, gone: bool)
    requires QueueInv(p) && f < |p.flows| && p.flows[f].connected
    ensures QueueInv(OnIntersect(p, f, eligible, gone))
    ensures PlayInv(p) ==> PlayInv(OnIntersect(p, f, eligible, gone))
  {
    var flow := p.flows[f];
    assert FlowAt(p, f) && (PlayInv(p) ==> PlayOk(p, f));
    var seen := if eligible == flow.onScreen then flow
                else if eligible then Arm(flow.(onScreen := true))
                else flow.(onScreen := false, dwell := false);
    if !gone {
      WithKeeps(p, f, seen);
    } else if p.holder == Some(f) {
      StandDownStep(p, seen, f);
    } else {
      ReleaseStep(p, seen, f);
    }
  }

  lemma {:induction false} ReplayKeeps(p: Page, f: nat)
    requires QueueInv(p) && f < |p.flows| && p.flows[f].connected
    ensures QueueInv(OnReplay(p, f))
    ensures PlayInv(p) && !(p.flows[f].settle && p.flows[f].upgraded) ==> PlayInv(OnReplay(p, f))
  {
    var claimed := ClaimTurn(p, f);
    ClaimHandsTheTurnToNobodyElse(p, f);
    ClaimIsLoose(p, f);
    assert FlowAt(p, f);
    if claimed.flows[f].upgraded {
      BegunKeeps(claimed, f, false);
    } else {
      ReleaseKeeps(claimed, f);
    }
    var q := OnReplay(p, f);
    if PlayInv(p) && !(p.flows[f].settle && p.flows[f].upgraded) {
      forall g | 0 <= g < |q.flows|
        ensures PlayOk(q, g)
      {
        assert g != f ==> PlayOk(claimed, g);
      }
    }
  }

  lemma {:induction false} DisconnectKeeps(p: Page, f: nat)
    requires QueueInv(p) && f < |p.flows|
    ensures QueueInv(OnDisconnect(p, f))
    ensures PlayInv(p) ==> PlayInv(OnDisconnect(p, f))
  {
    var gone := p.flows[f].(connected := false, onScreen := false);
    QueueInvIsLoose(p, gone, f);
    ReleaseKeeps(p.With(f, gone), f);
    var q := Release(p.With(f, gone), f);
    assert FlowAt(q, f);
    var r := OnDisconnect(p, f);
    forall g | 0 <= g < |q.flows|
      ensures FlowAt(r, g) && (PlayInv(p) ==> PlayOk(r, g))
    {
      assert FlowAt(q, g);
      assert PlayInv(p) && g != f ==> PlayOk(p, g) && PlayOk(p.With(f, gone), g) && PlayOk(q, g);
    }
  }

  lemma {:induction false} RunEndsKeeps(p: Page, f: nat, token: nat)
    requires QueueInv(p) && f < |p.flows| && token in p.flows[f].live
    ensures QueueInv(OnRunEnds(p, f, token))
    ensures PlayInv(p) ==> PlayInv(OnRunEnds(p, f, token))
  {
    assert FlowAt(p, f) && (PlayInv(p) ==> PlayOk(p, f));
    var flow := p.flows[f];
    var ended := flow.(live := flow.live - {token});
    WithKeeps(p, f, ended);
    if p.holder == Some(f) {
      WithKeeps(p, f, ended.(settle := true));
    }
  }

  /** One event keeps the queue in order, whatever the event; and keeps at most one flow
      playing unless it begins a session under that flow's own settle timer. */
  lemma {:induction false} StepKeeps(p: Page, e: Event)
    requires QueueInv(p)
    ensures QueueInv(Step(p, e))
    ensures PlayInv(p) && !BeginsUnderSettle(p, e) ==> PlayInv(Step(p, e))
  {
    if Enabled(p, e) {
      var flow := p.flows[e.f];
      assert FlowAt(p, e.f) && (PlayInv(p) ==> PlayOk(p, e.f));
      match e {
        case Connect(f) => WithKeeps(p, f, flow.(connected := true));
        case Disconnect(f) => DisconnectKeeps(p, f);
        case Upgrade(f) => WithKeeps(p, f, flow.(upgraded := true));
        case Intersect(f, eligible, gone) => IntersectKeeps(p, f, eligible, gone);
        case DwellFires(f) =>
          WithKeeps(p, f, flow.(dwell := false));
          if !flow.played {
            JoinKeeps(p.With(f, flow.(dwell := false)), f);
          }
        case SettleFires(f) => ReleaseStep(p, flow.(settle := false), f);
        case WatchdogFires(f) => StandDownStep(p, flow.(watchdog := false), f);
        case Replay(f) => ReplayKeeps(p, f);
        case RunEnds(f, token) => RunEndsKeeps(p, f, token);
      }
    }
  }

  // ---------------------------------------------------------------------
  // Whole runs
  // ---------------------------------------------------------------------

  lemma {:induction false} InitialIsInOrder(p: Page)
    requires Initial(p)
    ensures QueueInv(p) && PlayInv(p)
  {
  }

  lemma {:induction false} RunKeeps(p: Page, es: seq<Event>)
    requires QueueInv(p)
    ensures QueueInv(Run(p, es))
    ensures PlayInv(p) && Clean(p, es) ==> PlayInv(Run(p, es))
    decreases |es|
  {
    if es != [] {
      StepKeeps(p, es[0]);
      RunKeeps(Step(p, es[0]), es[1..]);
    }
  }

  /** In every run, between any two events: the holder is not waiting, the queue repeats nobody
      and holds only flows that never played, no holder means an empty queue, the holder's
      watchdog is armed, and the queue has started each flow at most once. */
  lemma {:induction false} QueueStaysInOrder(p: Page, es: seq<Event>, f: nat)
    requires Initial(p) && f < |p.flows|
    ensures var q := Run(p, es);
            && Distinct(q.waiting)
            && (q.holder == Some(f) ==> f !in q.waiting && q.flows[f].watchdog)
            && (f in q.waiting ==> !q.flows[f].played)
            && (q.holder == None ==> q.waiting == [])
            && AutoStarts(q.starts, f) <= 1
  {
    InitialIsInOrder(p);
    RunKeeps(p, es);
    assert FlowAt(Run(p, es), f);
  }

  /** At most one flow plays, in every run that never begins a session under its own settle timer. */
  lemma {:induction false} AtMostOneFlowPlays(p: Page, es: seq<Event>, f: nat, g: nat)
    requires Initial(p) && Clean(p, es)
    requires f < |p.flows| && g < |p.flows|
    requires Run(p, es).flows[f].Playing() && Run(p, es).flows[g].Playing()
    ensures f == g && Run(p, es).holder == Some(f)
  {
    InitialIsInOrder(p);
    RunKeeps(p, es);
    assert PlayOk(Run(p, es), f) && PlayOk(Run(p, es), g);
  }

  /** The hypothesis is exact. From a page in order, an event leaves every clean continuation
      exclusive if and only if it does not begin a session under the flow's own settle timer. */
  lemma {:induction false} ExclusiveExactlyWhenClean(p: Page, e: Event)
    requires QueueInv(p) && PlayInv(p)
    ensures !BeginsUnderSettle(p, e) <==>
            forall es: seq<Event> | Clean(Step(p, e), es) :: Exclusive(Run(Step(p, e), es))
  {
    StepKeeps(p, e);
    if !BeginsUnderSettle(p, e) {
      forall es: seq<Event> | Clean(Step(p, e), es)
        ensures Exclusive(Run(Step(p, e), es))
      {
        RunKeeps(Step(p, e), es);
        var q := Run(Step(p, e), es);
        forall f | 0 <= f < |q.flows| && q.flows[f].Playing()
          ensures q.holder == Some(f)
        {
          assert PlayOk(q, f);
        }
      }
    } else {
      SettleTimerTakesTheTurn(p, e.f);
    }
  }

  /** The failing run: Replay during the settle window, then the old timer fires. */
  lemma {:induction false} SettleTimerTakesTheTurn(p: Page, f: nat)
    requires QueueInv(p) && BeginsUnderSettle(p, Replay(f))
    ensures var q := Step(p, Replay(f));
            var es := [SettleFires(f)];
            Clean(q, es) && !Exclusive(Run(q, es))
  {
    assert FlowAt(p, f);
    var q := Step(p, Replay(f));
    StepKeeps(p, Replay(f));
    ClaimHandsTheTurnToNobodyElse(p, f);
    var es := [SettleFires(f)];
    assert es[1..] == [];
    assert q.flows[f].settle && q.flows[f].Playing();
    var flow := q.flows[f].(settle := false);
    QueueInvIsLoose(q, flow, f);
    ReleaseKeeps(q.With(f, flow), f);
    assert Run(q, es) == Step(q, SettleFires(f));
  }

  lemma {:induction false} RunSnoc(p: Page, es: seq<Event>, e: Event)
    requires InRange(p)
    ensures Run(p, es + [e]) == Step(Run(p, es), e)
    ensures Clean(p, es + [e]) <==> Clean(p, es) && !BeginsUnderSettle(Run(p, es), e)
    decreases |es|
  {
    hide Step, BeginsUnderSettle;
    if es == [] {
      assert [e][1..] == [];
      assert es + [e] == [e];
    } else {
      assert (es + [e])[1..] == es[1..] + [e];
      RunSnoc(Step(p, es[0]), es[1..], e);
    }
  }

  lemma {:induction false} FirstSteps(p: Page, f: nat)
    requires Initial(p) && f < |p.flows| && p.flows[f].upgraded
    ensures Step(Step(Step(p, Connect(f)), Replay(f)), RunEnds(f, 1)) == AtSettle(p, f)
  {
    var flow := p.flows[f].(connected := true);
    var a := Page(None, [], p.flows[f := flow], []);
    assert Step(p, Connect(f)) == a;
    var b := Page(Some(f), [], a.flows[f := flow.Started()], [Start(f, false)]);
    assert Step(a, Replay(f)) == b;
    assert {1} - {1} == {};
    assert Step(b, RunEnds(f, 1)) == AtSettle(p, f);
  }

  /** Such an event can be reached from a fresh page: press Replay, let the session end, press
      Replay again. */
  lemma {:induction false} SettleWindowIsReachable(p: Page, f: nat)
    requires Initial(p) && f < |p.flows| && p.flows[f].upgraded
    ensures var es := [Connect(f), Replay(f), RunEnds(f, 1)];
            Clean(p, es) && Run(p, es) == AtSettle(p, f) && BeginsUnderSettle(AtSettle(p, f), Replay(f))
  {
    FirstSteps(p, f);
    assert !BeginsUnderSettle(Step(p, Connect(f)), Replay(f));
    hide Step;
    RunSnoc(p, [], Connect(f));
    RunSnoc(p, [Connect(f)], Replay(f));
    RunSnoc(p, [Connect(f), Replay(f)], RunEnds(f, 1));
    assert [] + [Connect(f)] == [Connect(f)];
    assert [Connect(f)] + [Replay(f)] == [Connect(f), Replay(f)];
    assert [Connect(f), Replay(f)] + [RunEnds(f, 1)] == [Connect(f), Replay(f), RunEnds(f, 1)];
  }

  /** The page then: the flow holds the turn, with a settle timer running and nothing playing. */
  function AtSettle(p: Page, f: nat): Page
    requires f < |p.flows|
  {
    var flow := p.flows[f].(connected := true, played := true, watchdog := true, settle := true, run := 1);
    Page(Some(f), [], p.flows[f := flow], [Start(f, false)])
  }

  lemma {:induction false} LastSteps(p: Page, f: nat, g: nat)
    requires Initial(p) && f < |p.flows| && g < |p.flows| && f != g
    requires p.flows[f].upgraded && p.flows[g].upgraded
    ensures var q := Step(Step(Step(Step(AtSettle(p, f), Replay(f)), SettleFires(f)), Connect(g)), Replay(g));
            q.flows[f].Playing() && q.flows[g].Playing()
  {
    var a := AtSettle(p, f);
    var playing := a.flows[f].(run := 2, live := {2});
    assert {} + {2} == {2};
    assert a.flows[f].Started() == playing;
    var b := Page(Some(f), [], a.flows[f := playing], [Start(f, false), Start(f, false)]);
    assert Step(a, Replay(f)) == b;
    var left := playing.(settle := false, watchdog := false);
    var c := Page(None, [], b.flows[f := left], b.starts);
    assert Step(b, SettleFires(f)) == c;
    var d := c.(flows := c.flows[g := c.flows[g].(connected := true)]);
    assert Step(c, Connect(g)) == d;
    assert Step(d, Replay(g)).flows == d.flows[g := d.flows[g].Started()];
  }

  /** And from there two flows can come to play at once: the old timer takes the turn from the
      session it runs under, so the next Replay has nobody to stand down. */
  lemma {:induction false} TwoFlowsCanPlay(p: Page, f: nat, g: nat)
    requires Initial(p) && f < |p.flows| && g < |p.flows| && f != g
    requires p.flows[f].upgraded && p.flows[g].upgraded
    ensures var q := Run(p, [Connect(f), Replay(f), RunEnds(f, 1), Replay(f), SettleFires(f), Connect(g), Replay(g)]);
            q.flows[f].Playing() && q.flows[g].Playing()
  {
    var es := [Connect(f), Replay(f), RunEnds(f, 1)];
    SettleWindowIsReachable(p, f);
    LastSteps(p, f, g);
    hide Step;
    RunSnoc(p, es, Replay(f));
    RunSnoc(p, es + [Replay(f)], SettleFires(f));
    RunSnoc(p, es + [Replay(f)] + [SettleFires(f)], Connect(g));
    RunSnoc(p, es + [Replay(f)] + [SettleFires(f)] + [Connect(g)], Replay(g));
    assert es + [Replay(f)] + [SettleFires(f)] + [Connect(g)] + [Replay(g)]
        == [Connect(f), Replay(f), RunEnds(f, 1), Replay(f), SettleFires(f), Connect(g), Replay(g)];
  }

  /** The queue cannot wedge: while anybody waits, the holder's watchdog is armed, and when it
      fires the turn goes to the first waiting flow that accepts. */
  lemma {:induction false} WatchdogFreesTheQueue(p: Page, k: nat)
    requires QueueInv(p) && p.waiting != [] && k <= |p.waiting|
    requires forall j | 0 <= j < k :: !CanTake(p.flows[p.waiting[j]])
    requires k < |p.waiting| ==> CanTake(p.flows[p.waiting[k]])
    ensures p.holder.Some? && p.flows[p.holder.value].watchdog
    ensures var q := Step(p, WatchdogFires(p.holder.value));
            && q.holder == (if k < |p.waiting| then Some(p.waiting[k]) else None)
            && q.waiting == (if k < |p.waiting| then p.waiting[k + 1..] else [])
            && (k < |p.waiting| ==> q.flows[p.waiting[k]].Playing())
            && !q.flows[p.holder.value].Playing()
  {
    var h := p.holder.value;
    assert FlowAt(p, h);
    WatchdogReleases(p, h);
    hide QueueInv, Step, OfferTurn, Without, AutoStarts;
    var left := p.(flows := p.flows[h := p.flows[h].Stopped().Disarmed()], holder := None);
    forall j | 0 <= j < |p.waiting|
      ensures p.waiting[j] != h && left.flows[p.waiting[j]] == p.flows[p.waiting[j]]
    {
      assert p.waiting[j] in p.waiting;
    }
    FirstTakerPlays(left, k, h);
  }

  lemma {:induction false} FirstTakerPlays(p: Page, k: nat, h: nat)
    requires InRange(p) && p.holder == None && k <= |p.waiting| && h < |p.flows| && h !in p.waiting
    requires forall j | 0 <= j < k :: !CanTake(p.flows[p.waiting[j]])
    requires k < |p.waiting| ==> CanTake(p.flows[p.waiting[k]])
    ensures var q := OfferTurn(p);
            && q.holder == (if k < |p.waiting| then Some(p.waiting[k]) else None)
            && q.waiting == (if k < |p.waiting| then p.waiting[k + 1..] else [])
            && (k < |p.waiting| ==> q.flows[p.waiting[k]].Playing())
            && q.flows[h] == p.flows[h]
  {
    OfferStopsAtTheFirstTaker(p, k);
    hide OfferTurn;
  }

  lemma {:induction false} WatchdogReleases(p: Page, h: nat)
    requires QueueInv(p) && p.holder == Some(h)
    ensures Step(p, WatchdogFires(h)) ==
            OfferTurn(p.(flows := p.flows[h := p.flows[h].Stopped().Disarmed()], holder := None))
    ensures !p.flows[h].Stopped().Playing()
  {
    assert FlowAt(p, h);
    WithoutIs(p.waiting, h);
    hide OfferTurn;
    var fired := p.With(h, p.flows[h].(watchdog := false));
    var stopped := fired.With(h, fired.flows[h].Stopped());
    var disarmed := stopped.With(h, stopped.flows[h].Disarmed());
    assert disarmed.flows == p.flows[h := p.flows[h].Stopped().Disarmed()];
  }
}
