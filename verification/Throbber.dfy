/** The spinner cycles of docs-site/components/ui/throbber.ts. A glyph is one code point. */
module Throbber {
  import opened Common

  const BRAILLE_DOTS: seq<char> := "⠋⠙⠹⠸⠼⠴⠦⠧⠇⠏"
  const BRAILLE_BLOCKS: seq<char> := "⣾⣽⣻⢿⡿⣟⣯⣷"
  const CIRCLE_QUADRANTS: seq<char> := "◐◓◑◒"
  const CYCLES: seq<seq<char>> := [BRAILLE_DOTS, BRAILLE_BLOCKS, CIRCLE_QUADRANTS]

  const THROBBER_TICK_MS: nat := 100

  function IndexOf(cycle: seq<char>, glyph: char): (r: Option<nat>)
    ensures r.Some? <==> glyph in cycle
    ensures r.Some? ==> r.value < |cycle| && cycle[r.value] == glyph && glyph !in cycle[..r.value]
  {
    if cycle == [] then None
    else if cycle[0] == glyph then Some(0)
    else
      var rest := IndexOf(cycle[1..], glyph);
      assert cycle == [cycle[0]] + cycle[1..];
      if rest.None? then None
      else
        assert cycle[..rest.value + 1] == [cycle[0]] + cycle[1..][..rest.value];
        Some(rest.value + 1)
  }

  function CycleFromAmong(cycles: seq<seq<char>>, glyph: char): Option<seq<char>>
  {
    if cycles == [] then None
    else match IndexOf(cycles[0], glyph)
      case Some(start) => Some(cycles[0][start..] + cycles[0][..start])
      case None => CycleFromAmong(cycles[1..], glyph)
  }

  function ThrobberCycleFrom(glyph: char): Option<seq<char>>
  {
    CycleFromAmong(CYCLES, glyph)
  }

  predicate IsThrobberGlyph(glyph: char)
  {
    exists k | 0 <= k < |CYCLES| :: glyph in CYCLES[k]
  }

  /** `r` is `cycle` turned to begin at place `start`. */
  ghost predicate Rotation(r: seq<char>, cycle: seq<char>, start: nat)
  {
    && |r| == |cycle| && start < |cycle|
    && forall k | 0 <= k < |r| :: r[k] == cycle[(start + k) % |cycle|]
  }

  lemma {:induction false} CycleFromAmongIs(cycles: seq<seq<char>>, glyph: char)
    ensures var r := CycleFromAmong(cycles, glyph);
            && (r.Some? <==> exists k | 0 <= k < |cycles| :: glyph in cycles[k])
            && (r.Some? ==> exists k, start: nat | 0 <= k < |cycles| ::
                              Rotation(r.value, cycles[k], start) && cycles[k][start] == glyph)
  {
    if cycles != [] {
      match IndexOf(cycles[0], glyph) {
        case Some(start) =>
          Turned(cycles[0], start);
        case None =>
          CycleFromAmongIs(cycles[1..], glyph);
          assert forall k | 0 <= k < |cycles[1..]| :: cycles[1..][k] == cycles[k + 1];
          var r := CycleFromAmong(cycles[1..], glyph);
          if r.Some? {
            var k, start: nat :| 0 <= k < |cycles[1..]| && Rotation(r.value, cycles[1..][k], start)
                                 && cycles[1..][k][start] == glyph;
            assert Rotation(r.value, cycles[k + 1], start);
          }
      }
    }
  }

  lemma {:induction false} Turned(cycle: seq<char>, start: nat)
    requires start < |cycle|
    ensures Rotation(cycle[start..] + cycle[..start], cycle, start)
  {
    var r, n := cycle[start..] + cycle[..start], |cycle|;
    forall k | 0 <= k < n
      ensures r[k] == cycle[(start + k) % n]
    {
      Wrapped(start + k, n);
    }
  }

  lemma {:induction false} Wrapped(k: nat, n: nat)
    requires k < 2 * n
    ensures k % n == if k < n then k else k - n
  {
  }

  /** A cycle is found exactly for throbber glyphs; it is a whole revolution in painted order,
      beginning on the glyph photographed. */
  lemma {:induction false} CycleBeginsOnTheGlyph(glyph: char)
    ensures ThrobberCycleFrom(glyph).Some? <==> IsThrobberGlyph(glyph)
    ensures IsThrobberGlyph(glyph) ==>
              exists k, start: nat | 0 <= k < |CYCLES| ::
                && Rotation(ThrobberCycleFrom(glyph).value, CYCLES[k], start)
                && ThrobberCycleFrom(glyph).value[0] == glyph
  {
    CycleFromAmongIs(CYCLES, glyph);
    if IsThrobberGlyph(glyph) {
      var r := ThrobberCycleFrom(glyph).value;
      var k, start: nat :| 0 <= k < |CYCLES| && Rotation(r, CYCLES[k], start) && CYCLES[k][start] == glyph;
      assert r[0] == CYCLES[k][(start + 0) % |CYCLES[k]|];
    }
  }

  // ---------------------------------------------------------------------
  // Glyphs of one cycle
  // ---------------------------------------------------------------------

  ghost predicate SameCycle(a: char, b: char)
  {
    exists k | 0 <= k < |CYCLES| :: a in CYCLES[k] && b in CYCLES[k]
  }

  lemma {:induction false} DotsRange(c: char)
    requires c in BRAILLE_DOTS
    ensures 0x2800 <= c as int < 0x2840
  {
  }

  lemma {:induction false} BlocksRange(c: char)
    requires c in BRAILLE_BLOCKS
    ensures 0x2840 <= c as int < 0x2900
  {
  }

  lemma {:induction false} QuadrantsRange(c: char)
    requires c in CIRCLE_QUADRANTS
    ensures 0x25d0 <= c as int < 0x25d4
  {
  }

  /** No glyph belongs to two cycles. */
  lemma {:induction false} CyclesShareNothing(c: char, j: nat, k: nat)
    requires j < |CYCLES| && k < |CYCLES| && c in CYCLES[j] && c in CYCLES[k]
    ensures j == k
  {
    InRange(c, j);
    InRange(c, k);
  }

  lemma {:induction false} InRange(c: char, k: nat)
    requires k < |CYCLES| && c in CYCLES[k]
    ensures k == 0 ==> 0x2800 <= c as int < 0x2840
    ensures k == 1 ==> 0x2840 <= c as int < 0x2900
    ensures k == 2 ==> 0x25d0 <= c as int < 0x25d4
  {
    if k == 0 {
      DotsRange(c);
    } else if k == 1 {
      BlocksRange(c);
    } else {
      QuadrantsRange(c);
    }
  }

  lemma {:induction false} SameCycleReflexive(a: char)
    requires IsThrobberGlyph(a)
    ensures SameCycle(a, a)
  {
  }

  lemma {:induction false} SameCycleSymmetric(a: char, b: char)
    requires SameCycle(a, b)
    ensures SameCycle(b, a)
  {
  }

  lemma {:induction false} SameCycleTransitive(a: char, b: char, c: char)
    requires SameCycle(a, b) && SameCycle(b, c)
    ensures SameCycle(a, c)
  {
    var j :| 0 <= j < |CYCLES| && a in CYCLES[j] && b in CYCLES[j];
    var k :| 0 <= k < |CYCLES| && b in CYCLES[k] && c in CYCLES[k];
    CyclesShareNothing(b, j, k);
  }

  lemma {:induction false} AmongHolds(cycles: seq<seq<char>>, glyph: char) returns (k: nat)
    requires CycleFromAmong(cycles, glyph).Some?
    ensures k < |cycles| && glyph in cycles[k]
    ensures forall c: char :: c in CycleFromAmong(cycles, glyph).value <==> c in cycles[k]
  {
    match IndexOf(cycles[0], glyph) {
      case Some(start) =>
        k := 0;
        assert cycles[0] == cycles[0][..start] + cycles[0][start..];
      case None =>
        k := AmongHolds(cycles[1..], glyph);
        k := k + 1;
    }
  }

  /** The glyphs played for a glyph are those of its cycle. */
  lemma {:induction false} CycleHoldsExactly(glyph: char, other: char)
    requires IsThrobberGlyph(glyph)
    ensures ThrobberCycleFrom(glyph).Some?
    ensures other in ThrobberCycleFrom(glyph).value <==> SameCycle(glyph, other)
  {
    CycleBeginsOnTheGlyph(glyph);
    var k := AmongHolds(CYCLES, glyph);
    if SameCycle(glyph, other) {
      var j :| 0 <= j < |CYCLES| && glyph in CYCLES[j] && other in CYCLES[j];
      CyclesShareNothing(glyph, j, k);
    }
  }

  /** A run of glyphs shows only those of its first one's cycle if and only if each follows the
      last within one cycle. */
  lemma {:induction false} AllFromOneCycle(gs: seq<char>, glyphs: seq<char>)
    requires gs != [] && forall k | 0 <= k < |gs| :: IsThrobberGlyph(gs[k])
    requires Some(glyphs) == ThrobberCycleFrom(gs[0])
    ensures (forall k | 0 <= k < |gs| :: gs[k] in glyphs) <==>
            forall k | 0 <= k < |gs| - 1 :: SameCycle(gs[k], gs[k + 1])
  {
    hide IsThrobberGlyph, ThrobberCycleFrom, SameCycle;
    forall k | 0 <= k < |gs|
      ensures gs[k] in glyphs <==> SameCycle(gs[0], gs[k])
    {
      CycleHoldsExactly(gs[0], gs[k]);
    }
    if forall k | 0 <= k < |gs| :: gs[k] in glyphs {
      forall k | 0 <= k < |gs| - 1
        ensures SameCycle(gs[k], gs[k + 1])
      {
        SameCycleSymmetric(gs[0], gs[k]);
        SameCycleTransitive(gs[k], gs[0], gs[k + 1]);
      }
    }
    if forall k | 0 <= k < |gs| - 1 :: SameCycle(gs[k], gs[k + 1]) {
      SameCycleReflexive(gs[0]);
      for n := 1 to |gs|
        invariant forall k | 0 <= k < n :: SameCycle(gs[0], gs[k])
      {
        SameCycleTransitive(gs[0], gs[n - 1], gs[n - 1 + 1]);
      }
    }
  }
}
