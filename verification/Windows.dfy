/** The window markers of a recording: `windowIds` of docs-site/flow-markup.ts, and the flow's
    `data-up` flag that docs-site/components/ui/secreq-flow-element.ts drives from them. */
module Windows {
  import opened Common
  import opened TermPlan

  /** `termGuiMarkers`: the markers of a recording in the order they play. */
  function Markers(steps: seq<Step>): seq<Marker>
  {
    if steps == [] then []
    else if steps[0].Gui? then [steps[0].marker] + Markers(steps[1..]) else Markers(steps[1..])
  }

  lemma {:induction false} MarkersAppend(a: seq<Step>, b: seq<Step>)
    ensures Markers(a + b) == Markers(a) + Markers(b)
  {
    if a == [] {
      assert a + b == b;
    } else {
      assert (a + b)[1..] == a[1..] + b;
      MarkersAppend(a[1..], b);
    }
  }

  lemma {:induction false} MarkerOf(step: Step)
    ensures Markers([step]) == if step.Gui? then [step.marker] else []
  {
    assert [step][1..] == [];
  }

  /** Frames carry no markers. */
  lemma {:induction false} MarkersOfOthers(steps: seq<Step>, n: nat)
    requires n <= |steps|
    ensures Markers(Others(steps, n)) == Markers(steps[..n])
    decreases n
  {
    if n > 0 {
      var step := steps[n - 1];
      MarkersOfOthers(steps, n - 1);
      assert steps[..n] == steps[..n - 1] + [step];
      MarkersAppend(steps[..n - 1], [step]);
      MarkersAppend(Others(steps, n - 1), [step]);
      MarkerOf(step);
    }
  }

  /** A string or null, as JavaScript tests it: the empty string counts for nothing. */
  predicate Truthy(up: Option<string>)
  {
    up.Some? && up.value != ""
  }

  // ---------------------------------------------------------------------
  // The language accepted
  // ---------------------------------------------------------------------

  /** Adjacent pairs, each showing a window and hiding the same one. */
  predicate Pairs(ms: seq<Marker>)
  {
    ms == [] || (|ms| >= 2 && ms[0].show && ms[1] == Marker(false, ms[0].id) && Pairs(ms[2..]))
  }

  /** Pairs, with a show of the empty id let stand alone anywhere between them. */
  predicate Blocks(ms: seq<Marker>)
  {
    || ms == []
    || (|ms| >= 2 && ms[0].show && ms[1] == Marker(false, ms[0].id) && Blocks(ms[2..]))
    || (ms[0] == Marker(true, "") && Blocks(ms[1..]))
  }

  /** Every show of the empty id is hidden next. */
  predicate NoStray(ms: seq<Marker>)
  {
    forall k | 0 <= k < |ms| && ms[k] == Marker(true, "") :: k + 1 < |ms| && ms[k + 1] == Marker(false, "")
  }

  /** What one marker does to the window that is up; None is an error. */
  function Next(up: Option<string>, m: Marker): Option<Option<string>>
  {
    if m.show then if Truthy(up) then None else Some(Some(m.id))
    else if up == Some(m.id) then Some(None) else None
  }

  /** The window up after `ms`, from `up`; None once a marker was refused. */
  function Walk(up: Option<string>, ms: seq<Marker>): Option<Option<string>>
    decreases |ms|
  {
    if ms == [] then Some(up)
    else match Next(up, ms[0])
      case None => None
      case Some(then_) => Walk(then_, ms[1..])
  }

  predicate Accepted(ms: seq<Marker>)
  {
    ms != [] && Walk(None, ms).Some? && !Truthy(Walk(None, ms).value)
  }

  lemma {:induction false} WalkAppend(up: Option<string>, a: seq<Marker>, b: seq<Marker>)
    ensures Walk(up, a + b) == if Walk(up, a).None? then None else Walk(Walk(up, a).value, b)
    decreases |a|
  {
    if a == [] {
      assert a + b == b;
    } else {
      assert (a + b)[1..] == a[1..] + b;
      var next := Next(up, a[0]);
      if next.Some? {
        WalkAppend(next.value, a[1..], b);
      }
    }
  }

  lemma {:induction false} AcceptedIsSome(ms: seq<Marker>)
    requires Accepted(ms)
    ensures ms != [] && Walk(None, []).Some?
  {
  }

  lemma {:induction false} WalkIsBlocks(ms: seq<Marker>)
    ensures Walk(None, ms).Some? && !Truthy(Walk(None, ms).value) <==> Blocks(ms)
    ensures Walk(Some(""), ms).Some? && !Truthy(Walk(Some(""), ms).value) <==>
            Blocks(ms) || (ms != [] && ms[0] == Marker(false, "") && Blocks(ms[1..]))
    decreases |ms|
  {
    if ms != [] {
      WalkIsBlocks(ms[1..]);
      if |ms| >= 2 {
        WalkIsBlocks(ms[2..]);
        assert ms[1..][1..] == ms[2..];
      }
    }
  }

  /** The recordings accepted: at least one marker, pairs, and stray shows of the empty id. */
  lemma {:induction false} AcceptedAreBlocks(ms: seq<Marker>)
    ensures Accepted(ms) <==> ms != [] && Blocks(ms)
  {
    WalkIsBlocks(ms);
  }

  /** Pairs are what is left of the language once no empty id is left showing. */
  lemma {:induction false} PairsAreBlocksWithoutStrays(ms: seq<Marker>)
    ensures Pairs(ms) <==> Blocks(ms) && NoStray(ms)
    decreases |ms|
  {
    if |ms| >= 2 && ms[0].show && ms[1] == Marker(false, ms[0].id) {
      PairsAreBlocksWithoutStrays(ms[2..]);
      assert forall k | 0 <= k < |ms| - 2 :: ms[2..][k] == ms[k + 2];
      assert forall k | 2 <= k < |ms| :: ms[k] == ms[2..][k - 2];
      if ms[0] == Marker(true, "") {
        assert !Blocks(ms[1..]);
      }
    }
  }

  /** The recording `windowIds` means to accept, and does when every window has a name. */
  lemma {:induction false} AcceptedArePairs(ms: seq<Marker>)
    ensures Accepted(ms) && NoStray(ms) <==> ms != [] && Pairs(ms)
    ensures (forall k | 0 <= k < |ms| :: ms[k].id != "") ==> (Accepted(ms) <==> ms != [] && Pairs(ms))
  {
    AcceptedAreBlocks(ms);
    PairsAreBlocksWithoutStrays(ms);
  }

  /** A window of the empty id may be left up. */
  lemma {:induction false} EmptyIdIsNotMissed()
    ensures var ms := [Marker(true, "")]; Accepted(ms) && !Pairs(ms)
  {
    var ms := [Marker(true, "")];
    assert ms[1..] == [];
    assert Next(None, ms[0]) == Some(Some(""));
    assert Walk(Some(""), []) == Some(Some(""));
    assert Walk(None, ms) == Walk(Some(""), ms[1..]);
  }

  // ---------------------------------------------------------------------
  // windowIds
  // ---------------------------------------------------------------------

  /** `at` lists, in order, where each id of `ids` is first shown, and every shown id is there. */
  ghost predicate FirstShown(ms: seq<Marker>, ids: seq<string>, at: seq<nat>)
  {
    && |at| == |ids|
    && (forall j | 0 <= j < |ids| :: at[j] < |ms| && ms[at[j]] == Marker(true, ids[j]))
    && (forall i, j | 0 <= i < j < |ids| :: at[i] < at[j] && ids[i] != ids[j])
    && (forall j, k | 0 <= j < |ids| && 0 <= k < at[j] :: ms[k] != Marker(true, ids[j]))
    && (forall k | 0 <= k < |ms| && ms[k].show :: ms[k].id in ids)
  }

  /** The distinct window ids a recording raises, first one first; None is a build failure. */
  method WindowIds(ms: seq<Marker>) returns (r: Option<seq<string>>, ghost at: seq<nat>)
    ensures r.Some? <==> Accepted(ms)
    ensures r.Some? ==> FirstShown(ms, r.value, at)
  {
    if |ms| == 0 {
      return None, [];
    }
    var ids: seq<string> := [];
    var up: Option<string> := None;
    at := [];
    for k := 0 to |ms|
      invariant Walk(None, ms[..k]) == Some(up)
      invariant FirstShown(ms[..k], ids, at)
    {
      var marker := ms[k];
      OneMore(ms, k, up);
      if marker.show {
        if Truthy(up) {
          return None, at;
        }
        up := Some(marker.id);
        ShownOnce(ms, k, ids, at);
        if marker.id !in ids {
          ids, at := ids + [marker.id], at + [k];
        }
      } else {
        if up != Some(marker.id) {
          return None, at;
        }
        up := None;
        ShownOnce(ms, k, ids, at);
      }
    }
    assert ms[..|ms|] == ms;
    if Truthy(up) {
      return None, at;
    }
    return Some(ids), at;
  }

  lemma {:induction false} OneMore(ms: seq<Marker>, k: nat, up: Option<string>)
    requires k < |ms| && Walk(None, ms[..k]) == Some(up)
    ensures Walk(None, ms[..k + 1]) == Next(up, ms[k])
    ensures Next(up, ms[k]).None? ==> !Accepted(ms)
  {
    assert ms[..k + 1] == ms[..k] + [ms[k]];
    WalkAppend(None, ms[..k], [ms[k]]);
    assert Walk(up, [ms[k]]) == Next(up, ms[k]) by {
      assert [ms[k]][1..] == [];
    }
    WalkAppend(None, ms[..k + 1], ms[k + 1..]);
    assert ms == ms[..k + 1] + ms[k + 1..];
  }

  lemma {:induction false} ShownOnce(ms: seq<Marker>, k: nat, ids: seq<string>, at: seq<nat>)
    requires k < |ms| && FirstShown(ms[..k], ids, at)
    ensures if ms[k].show && ms[k].id !in ids then FirstShown(ms[..k + 1], ids + [ms[k].id], at + [k])
            else FirstShown(ms[..k + 1], ids, at)
  {
    assert ms[..k + 1] == ms[..k] + [ms[k]];
  }

  // ---------------------------------------------------------------------
  // The flow's up flag during playback
  // ---------------------------------------------------------------------

  /** `#onGui` over the markers played so far. */
  function UpFlag(up: bool, ms: seq<Marker>): bool
  {
    if ms == [] then up else ms[|ms| - 1].show
  }

  lemma {:induction false} FlagFollowsTheWalk(up: Option<string>, before: bool, ms: seq<Marker>)
    requires ms != [] && Walk(up, ms).Some?
    ensures UpFlag(before, ms) == Walk(up, ms).value.Some?
    decreases |ms|
  {
    var next := Next(up, ms[0]).value;
    if |ms| == 1 {
      assert ms[1..] == [];
    } else {
      FlagFollowsTheWalk(next, before, ms[1..]);
    }
  }

  /** During a playback of an accepted recording, from its first marker on, the flag says
      whether the validator's window is up, whatever an earlier session left; and it is off at
      the end if and only if the recording does not end on a stray show of the empty id. */
  lemma {:induction false} FlagMatchesTheWindow(ms: seq<Marker>, n: nat, before: bool)
    requires Accepted(ms) && 0 < n <= |ms|
    ensures Walk(None, ms[..n]).Some?
    ensures UpFlag(before, ms[..n]) == Walk(None, ms[..n]).value.Some?
    ensures !UpFlag(before, ms) <==> ms[|ms| - 1] != Marker(true, "")
  {
    WalkAppend(None, ms[..n], ms[n..]);
    assert ms == ms[..n] + ms[n..];
    FlagFollowsTheWalk(None, before, ms[..n]);
    if ms[|ms| - 1].show {
      LastShown(None, ms);
    }
  }

  lemma {:induction false} LastShown(up: Option<string>, ms: seq<Marker>)
    requires ms != [] && Walk(up, ms).Some? && ms[|ms| - 1].show
    ensures Walk(up, ms).value == Some(ms[|ms| - 1].id)
    decreases |ms|
  {
    var next := Next(up, ms[0]).value;
    if |ms| == 1 {
      assert ms[1..] == [];
    } else {
      LastShown(next, ms[1..]);
    }
  }

  /** With pairs, the flag is up exactly between a show and its hide. */
  lemma {:induction false} FlagFollowsPairs(ms: seq<Marker>, n: nat, before: bool)
    requires Pairs(ms) && 0 < n <= |ms|
    ensures UpFlag(before, ms[..n]) == (n % 2 == 1)
    ensures |ms| % 2 == 0
    decreases |ms|
  {
    PairsAreEven(ms, n - 1);
  }

  lemma {:induction false} PairsAreEven(ms: seq<Marker>, k: nat)
    requires Pairs(ms) && k < |ms|
    ensures |ms| % 2 == 0 && (ms[k].show <==> k % 2 == 0)
    decreases |ms|
  {
    if |ms| > 2 {
      PairsAreEven(ms[2..], if k >= 2 then k - 2 else 0);
    }
  }
}
