/** The flow elements and the page-wide turn, as docs-site/components/ui/secreq-flow-element.ts
    updates them in place. Every handler does to the page what its step in `Turns` says. */
module FlowElement {
  import opened Common
  import opened Turns

  class SecreqFlow {
    var connected: bool
    var onScreen: bool
    var played: bool
    /** The timers, armed or not. */
    var watchdog: bool
    var settle: bool
    var dwell: bool
    /** The terminal inside: whether it has been upgraded, and its run token. */
    var upgraded: bool
    var run: nat
    /** The playback runs that have not finished. */
    ghost var live: set<nat>

    ghost function Record(): Flow
      reads this
    {
      Flow(connected, upgraded, onScreen, played, watchdog, settle, dwell, run, live)
    }

    constructor ()
      ensures Record() == Flow(false, false, false, false, false, false, false, 0, {})
    {
      connected, onScreen, played := false, false, false;
      watchdog, settle, dwell := false, false, false;
      upgraded, run, live := false, 0, {};
    }

    method StartTerminal()
      modifies this
      ensures Record() == old(Record().(run := run + 1, live := live + {run + 1}))
    {
      run := run + 1;
      live := live + {run};
    }

    method StopTerminal()
      modifies this
      ensures Record() == old(Record().Stopped())
    {
      if upgraded {
        run := run + 1;
      }
    }

    method Arm()
      modifies this
      ensures Record() == Turns.Arm(old(Record()))
    {
      if dwell || played {
        return;
      }
      dwell := true;
    }

    method Disarm()
      modifies this
      ensures Record() == old(Record().(dwell := false))
    {
      dwell := false;
    }
  }

  lemma {:induction false} SplitAt(s: seq<nat>, k: nat)
    requires k < |s|
    ensures s[k..] == [s[k]] + s[k + 1..] && s[k..][0] == s[k] && s[k..][1..] == s[k + 1..]
    ensures s[..k + 1] == s[..k] + [s[k]]
    ensures forall t: seq<nat> {:trigger s[..k] + ([s[k]] + t)} :: s[..k] + ([s[k]] + t) == s[..k + 1] + t
  {
  }

  class FlowPage {
    const flows: seq<SecreqFlow>
    var holder: Option<nat>
    var waiting: seq<nat>
    /** The sessions begun so far. */
    ghost var starts: seq<Start>

    ghost function View(): Page
      reads this, flows
    {
      Page(holder, waiting, Records(), starts)
    }

    ghost function Records(): seq<Flow>
      reads flows
    {
      seq(|flows|, k requires 0 <= k < |flows| reads flows => flows[k].Record())
    }

    ghost predicate Valid()
      reads this
    {
      && (forall i, j | 0 <= i < j < |flows| :: flows[i] != flows[j])
      && (holder.Some? ==> holder.value < |flows|)
      && (forall k | 0 <= k < |waiting| :: waiting[k] < |flows|)
    }

    constructor (flows: seq<SecreqFlow>)
      requires forall i, j | 0 <= i < j < |flows| :: flows[i] != flows[j]
      ensures Valid() && this.flows == flows
      ensures View() == Page(None, [], Records(), [])
    {
      this.flows := flows;
      this.holder := None;
      this.waiting := [];
      this.starts := [];
    }

    /** Only the record of `f` has changed. */
    twostate lemma {:induction false} OnlyChanged(f: nat)
      requires f < |flows|
      requires old(holder) == holder && old(waiting) == waiting && old(starts) == starts
      requires forall k | 0 <= k < |flows| && k != f :: flows[k].Record() == old(flows[k].Record())
      ensures View() == old(View()).With(f, flows[f].Record())
    {
    }

    predicate HoldsTurn(f: nat)
      reads this
    {
      holder == Some(f)
    }

    method JoinQueue(f: nat)
      requires Valid() && f < |flows|
      modifies this, flows
      ensures Valid() && View() == Turns.JoinQueue(old(View()), f)
    {
      if holder == Some(f) || f in waiting {
        return;
      }
      waiting := waiting + [f];
      if holder.None? {
        OfferTurn();
      }
    }

    method RemoveWaiting(f: nat)
      requires Valid()
      modifies this`waiting
      ensures Valid() && waiting == Without(old(waiting), f)
    {
      var place := 0;
      assert waiting[0..] == waiting;
      while place < |waiting| && waiting[place] != f
        invariant waiting == old(waiting) && 0 <= place <= |waiting|
        invariant Without(waiting, f) == waiting[..place] + Without(waiting[place..], f)
      {
        SplitAt(waiting, place);
        place := place + 1;
      }
      if place < |waiting| {
        SplitAt(waiting, place);
        assert Without(waiting[place..], f) == waiting[place + 1..];
        waiting := waiting[..place] + waiting[place + 1..];
      } else {
        assert waiting[..place] + Without(waiting[place..], f) == waiting;
      }
    }

    method LeaveQueue(f: nat)
      requires Valid() && f < |flows|
      modifies this, flows
      ensures Valid() && View() == Turns.LeaveQueue(old(View()), f)
    {
      RemoveWaiting(f);
      if holder != Some(f) {
        return;
      }
      holder := None;
      OfferTurn();
    }

    method OfferTurn()
      requires Valid()
      modifies this, flows
      ensures Valid() && View() == Turns.OfferTurn(old(View()))
    {
      hide Begun;
      while holder.None?
        invariant Valid()
        invariant Turns.OfferTurn(View()) == Turns.OfferTurn(old(View()))
        decreases if holder.None? then 1 else 0, |waiting|
      {
        if waiting == [] {
          return;
        }
        var next := waiting[0];
        waiting := waiting[1..];
        holder := Some(next);
        var took := TakeTurn(next);
        if took {
          return;
        }
        holder := None;
      }
    }

    method ClaimTurn(f: nat)
      requires Valid() && f < |flows|
      modifies this, flows
      ensures Valid() && View() == Turns.ClaimTurn(old(View()), f)
    {
      var held := holder;
      holder := Some(f);
      RemoveWaiting(f);
      if held.Some? && held != Some(f) {
        StandDown(held.value);
      }
    }

    method TakeTurn(f: nat) returns (took: bool)
      requires Valid() && f < |flows|
      modifies this`starts, flows
      ensures Valid()
      ensures took == CanTake(old(flows[f].Record()))
      ensures View() == if took then Begun(old(View()), f, true) else old(View())
    {
      if !flows[f].onScreen {
        return false;
      }
      took := Begin(f, true);
    }

    method StandDown(f: nat)
      requires Valid() && f < |flows|
      modifies this, flows
      ensures Valid() && View() == Turns.StandDown(old(View()), f)
    {
      hide Turns.OfferTurn, Turns.LeaveQueue, Turns.JoinQueue, Turns.Release, Without;
      flows[f].StopTerminal();
      assert View() == old(View().With(f, flows[f].Record().Stopped()));
      Release(f);
    }

    method Begin(f: nat, ghost byQueue: bool) returns (ok: bool)
      requires Valid() && f < |flows|
      modifies this`starts, flows
      ensures Valid()
      ensures ok == old(flows[f].upgraded)
      ensures View() == if ok then Begun(old(View()), f, byQueue) else old(View())
    {
      if !flows[f].upgraded {
        return false;
      }
      flows[f].played := true;
      flows[f].watchdog := true;
      flows[f].StartTerminal();
      starts := starts + [Start(f, byQueue)];
      assert View() == Begun(old(View()), f, byQueue);
      return true;
    }

    method Release(f: nat)
      requires Valid() && f < |flows|
      modifies this, flows
      ensures Valid() && View() == Turns.Release(old(View()), f)
    {
      hide Turns.OfferTurn, Turns.LeaveQueue, Turns.JoinQueue, Turns.StandDown, Without;
      flows[f].Disarm();
      flows[f].watchdog := false;
      flows[f].settle := false;
      assert View() == old(View().With(f, flows[f].Record().Disarmed()));
      LeaveQueue(f);
    }

    method OnIntersect(f: nat, eligible: bool, gone: bool)
      requires Valid() && f < |flows|
      modifies this, flows
      ensures Valid() && View() == Turns.OnIntersect(old(View()), f, eligible, gone)
    {
      hide Turns.OfferTurn, Turns.LeaveQueue, Turns.JoinQueue, Turns.Release, Turns.StandDown, Without;
      if eligible != flows[f].onScreen {
        flows[f].onScreen := eligible;
        if eligible {
          flows[f].Arm();
        } else {
          flows[f].Disarm();
        }
      }
      ghost var flow := old(flows[f].Record());
      ghost var seen := if eligible == flow.onScreen then flow
                        else if eligible then Turns.Arm(flow.(onScreen := true))
                        else flow.(onScreen := false, dwell := false);
      assert View() == old(View()).With(f, seen);
      if gone {
        if HoldsTurn(f) {
          StandDown(f);
        } else {
          Release(f);
        }
      }
    }

    /** The dwell timer of an armed flow. */
    method OnDwell(f: nat)
      requires Valid() && f < |flows| && flows[f].dwell
      modifies this, flows
      ensures Valid() && View() == Step(old(View()), DwellFires(f))
    {
      hide Turns.OfferTurn, Turns.LeaveQueue, Turns.JoinQueue, Turns.Release, Turns.StandDown, Without;
      flows[f].dwell := false;
      assert View() == old(View().With(f, flows[f].Record().(dwell := false)));
      if !flows[f].played {
        JoinQueue(f);
      }
    }

    method OnSettle(f: nat)
      requires Valid() && f < |flows| && flows[f].settle
      modifies this, flows
      ensures Valid() && View() == Step(old(View()), SettleFires(f))
    {
      hide Turns.OfferTurn, Turns.LeaveQueue, Turns.JoinQueue, Turns.Release, Turns.StandDown, Without;
      flows[f].settle := false;
      assert View() == old(View().With(f, flows[f].Record().(settle := false)));
      Release(f);
    }

    method OnWatchdog(f: nat)
      requires Valid() && f < |flows| && flows[f].watchdog
      modifies this, flows
      ensures Valid() && View() == Step(old(View()), WatchdogFires(f))
    {
      hide Turns.OfferTurn, Turns.LeaveQueue, Turns.JoinQueue, Turns.Release, Turns.StandDown, Without;
      flows[f].watchdog := false;
      assert View() == old(View().With(f, flows[f].Record().(watchdog := false)));
      StandDown(f);
    }

    /** A playback run of the terminal in `f` returns. */
    method OnRunEnds(f: nat, token: nat)
      requires Valid() && f < |flows| && token in flows[f].live
      modifies this, flows
      ensures Valid() && View() == Step(old(View()), RunEnds(f, token))
    {
      hide Turns.OfferTurn, Turns.LeaveQueue, Turns.JoinQueue, Turns.Release, Turns.StandDown, Without;
      flows[f].live := flows[f].live - {token};
      if flows[f].run == token && flows[f].connected {
        OnEnd(f);
      }
      assert View().flows == Step(old(View()), RunEnds(f, token)).flows;
    }

    method OnEnd(f: nat)
      requires Valid() && f < |flows|
      modifies flows[f]
      ensures flows[f].Record() == old(flows[f].Record()).(settle := old(flows[f].settle) || HoldsTurn(f))
    {
      if !HoldsTurn(f) {
        return;
      }
      flows[f].settle := true;
    }

    method OnReplay(f: nat)
      requires Valid() && f < |flows|
      modifies this, flows
      ensures Valid() && View() == Turns.OnReplay(old(View()), f)
    {
      ClaimTurn(f);
      var began := Begin(f, false);
      if !began {
        Release(f);
      }
    }

    /** The flow's own `disconnectedCallback`. */
    method Detach(f: nat)
      requires Valid() && f < |flows|
      modifies this, flows
      ensures Valid()
      ensures View() == Turns.Release(old(View().With(f, flows[f].Record().(connected := false, onScreen := false))), f)
    {
      hide Turns.OfferTurn, Turns.LeaveQueue, Turns.JoinQueue, Turns.Release, Turns.StandDown, Without;
      flows[f].connected := false;
      flows[f].onScreen := false;
      OnlyChanged(f);
      Release(f);
    }

    /** The terminal's `disconnectedCallback`, if it has been upgraded: its current run is
        superseded. */
    method DetachTerminal(f: nat)
      requires Valid() && f < |flows|
      modifies flows[f]
      ensures Valid() && View() == old(View()).With(f, old(flows[f].Record()).Stopped())
    {
      if flows[f].upgraded {
        flows[f].run := flows[f].run + 1;
      }
      OnlyChanged(f);
    }

    /** The flow leaves the document, and then the terminal in it does. */
    method OnDisconnect(f: nat)
      requires Valid() && f < |flows|
      modifies this, flows
      ensures Valid() && View() == Turns.OnDisconnect(old(View()), f)
    {
      hide Turns.Release, Without;
      Detach(f);
      DetachTerminal(f);
    }
  }
}
