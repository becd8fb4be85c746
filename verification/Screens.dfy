/** What a reader of the terminal in docs-site/components/ui/secreq-terminal-element.ts sees while a
    session plays: the screen itself, and not the writes that make it. */
module Screens {
  import opened Common
  import opened TermPlan
  import opened Player
  import Throbber

  /** Nothing overlaid, and no caret. */
  function Cleared(s: Screen): Screen
  {
    s.(typed := [], spun := [], caret := None)
  }

  /** A recorded cell, one row further down when a prompt stands above it. */
  function Cell(rec: Recording, row: nat, col: nat): Place
  {
    Place(if rec.prompt then row + 1 else row, col)
  }

  /** `text` laid over the frame, and the caret behind its last character. */
  function Overlaid(rec: Recording, s: Screen, row: nat, col: nat, text: string): Screen
  {
    s.(typed := s.typed + [Overlay(Cell(rec, row, col), text)], caret := Some(Cell(rec, row, col + |text|)))
  }

  /** The glyph so many places on from the first, over and over; nothing if there is none. */
  function Turned(glyphs: seq<char>, turns: nat): string
  {
    if glyphs == [] then "" else [glyphs[turns % |glyphs|]]
  }

  lemma {:induction false} GlyphIsTurned(glyphs: seq<char>, turns: nat)
    ensures GlyphAt(glyphs, turns) == Turned(glyphs, turns)
  {
  }

  /** Frame `i`, with one glyph over it and nothing else: `turns` places on from the first. */
  function Turning(rec: Recording, s: Screen, i: nat, at: Place, glyphs: seq<char>, turns: nat): Screen
  {
    Shows(Cleared(s), i).(spun := [Overlay(at, Turned(glyphs, turns))])
  }

  /** Nothing below the prompt, and the first `n` characters of the command on it. */
  function Entered(rec: Recording, s: Screen, n: nat): Screen
    requires n <= |rec.command|
  {
    Shows(Cleared(s).(caps := []), -1).(command := rec.command[..n], caret := Some(Place(0, rec.sigil + n)))
  }

  /** Before the first step. */
  function Ready(rec: Recording, s: Screen, captured: bool): Screen
  {
    if rec.prompt && captured then Entered(rec, s, |rec.command|) else Cleared(s).(caps := [])
  }

  /** After one step. */
  function After(rec: Recording, s: Screen, entry: Entry): Screen
  {
    match entry
    case Show(i, _) => Shows(Cleared(s), i)
    case Spin(i, _, _, _, _, _) => Shows(Cleared(s), i)
    case Play(Type(text, row, col)) => Overlaid(rec, s, row, col, text)
    case Play(Paste(text, row, col)) => Overlaid(rec, s.(caps := s.caps + [rec.shortcut]), row, col, text)
    case Play(Gui(_)) => s
    case Play(Key(key)) => s.(caps := s.caps + [KeyGlyph(key)])
    case Play(Photograph(_)) => s.(caps := s.caps + [""])
  }

  /** After the first `n` steps. */
  function AfterSteps(rec: Recording, s: Screen, script: seq<Entry>, n: nat): Screen
    requires n <= |script|
  {
    if n == 0 then s else After(rec, AfterSteps(rec, s, script, n - 1), script[n - 1])
  }

  /** While a run is parked at `pc`, having begun over the screen `s`. */
  function Seen(rec: Recording, s: Screen, captured: bool, pc: Pc): Screen
    requires OnScript(rec, captured, pc)
  {
    var script, ready := rec.script.value, Ready(rec, s, captured);
    match pc
    case Typing(i) => Entered(rec, s, i - 1)
    case Between(n) => AfterSteps(rec, ready, script, n)
    case InType(n, i) =>
      var Type(text, row, col) := script[n].step;
      Overlaid(rec, AfterSteps(rec, ready, script, n), row, col, text[..i - 1])
    case InPaste(n) =>
      var before := AfterSteps(rec, ready, script, n);
      before.(caps := before.caps + [rec.shortcut])
    case Settling(n) => AfterSteps(rec, ready, script, n + 1)
    case InSpin(n, i) =>
      var Spin(f, row, col, glyphs, _, _) := script[n];
      Turning(rec, AfterSteps(rec, ready, script, n), f, Cell(rec, row, col), glyphs, i - 1)
    case Finishing(_) => Shows(Cleared(AfterSteps(rec, ready, script, |script|)), rec.frames - 1)
    case Over(_, _) => Shows(Cleared(AfterSteps(rec, ready, script, |script|)), rec.frames - 1)
  }

  // ---------------------------------------------------------------------
  // The writes make the screen
  // ---------------------------------------------------------------------

  lemma {:induction false} ApplyOne(s: Screen, w: Write)
    ensures ApplyAll(s, [w]) == Apply(s, w)
  {
    assert [w] == [] + [w];
    ApplyMore(s, [], w);
  }

  lemma {:induction false} TypedIsOverlaid(rec: Recording, s: Screen, row: nat, col: nat, text: string, n: nat)
    requires n <= |text|
    ensures var at := At(rec, row, col);
            ApplyAll(s, [AddTyped(at), PlaceCaret(at)] + TypedTo(at, text, n)) == Overlaid(rec, s, row, col, text[..n])
  {
    var at := At(rec, row, col);
    var lead := [AddTyped(at), PlaceCaret(at)];
    if n == 0 {
      assert lead + [] == lead;
      ApplyTwo(s, AddTyped(at), PlaceCaret(at));
    } else {
      TypedIsOverlaid(rec, s, row, col, text, n - 1);
      var last := [SetTyped(text[..n]), PlaceCaret(Place(at.row, at.col + n))];
      assert lead + TypedTo(at, text, n) == (lead + TypedTo(at, text, n - 1)) + last;
      ApplyAppend(s, lead + TypedTo(at, text, n - 1), last);
      ApplyTwo(Overlaid(rec, s, row, col, text[..n - 1]), last[0], last[1]);
      hide TypedTo, ApplyAll;
    }
  }

  lemma {:induction false} TurnsOn(rec: Recording, s: Screen, i: nat, at: Place, glyphs: seq<char>, n: nat)
    requires n > 0
    ensures Apply(Turning(rec, s, i, at, glyphs, n - 1), SetSpin(Turned(glyphs, n)))
            == Turning(rec, s, i, at, glyphs, n)
  {
    hide Turned, Shows, Cleared;
  }

  lemma {:induction false} SpunIsTurning(rec: Recording, s: Screen, i: nat, row: nat, col: nat, glyphs: seq<char>,
                                         n: nat)
    ensures var at := At(rec, row, col);
            ApplyAll(s, [Reset, ShowFrame(i), AddSpin(at, GlyphAt(glyphs, 0))] + SpunTo(glyphs, n)) ==
            Turning(rec, s, i, Cell(rec, row, col), glyphs, n)
  {
    var at := At(rec, row, col);
    var lead := [Reset, ShowFrame(i), AddSpin(at, GlyphAt(glyphs, 0))];
    GlyphIsTurned(glyphs, n);
    hide GlyphAt, Turned, Cell;
    if n == 0 {
      assert lead == [Reset, ShowFrame(i)] + [AddSpin(at, GlyphAt(glyphs, 0))] && lead + [] == lead;
      ApplyTwo(s, Reset, ShowFrame(i));
      ApplyMore(s, [Reset, ShowFrame(i)], AddSpin(at, GlyphAt(glyphs, 0)));
    } else {
      SpunIsTurning(rec, s, i, row, col, glyphs, n - 1);
      assert lead + SpunTo(glyphs, n) == (lead + SpunTo(glyphs, n - 1)) + [SetSpin(GlyphAt(glyphs, n))];
      ApplyMore(s, lead + SpunTo(glyphs, n - 1), SetSpin(GlyphAt(glyphs, n)));
      TurnsOn(rec, s, i, Cell(rec, row, col), glyphs, n);
      hide Turning, Apply;
    }
  }

  lemma {:induction false} EnteringIsEntered(rec: Recording, s: Screen, n: nat)
    requires n <= |rec.command|
    ensures ApplyAll(s, Entering(rec, n)) == Entered(rec, s, n)
  {
    if n == 0 {
      var at := PlaceCaret(Place(0, rec.sigil));
      assert Entering(rec, 0) == [Reset, ClearKeys] + ([ShowFrame(-1), Command("")] + [at]);
      ApplyAppend(s, [Reset, ClearKeys], [ShowFrame(-1), Command("")] + [at]);
      ApplyTwo(s, Reset, ClearKeys);
      var cleared := ApplyAll(s, [Reset, ClearKeys]);
      ApplyTwo(cleared, ShowFrame(-1), Command(""));
      ApplyMore(cleared, [ShowFrame(-1), Command("")], at);
    } else {
      EnteringIsEntered(rec, s, n - 1);
      var last := [Command(rec.command[..n]), PlaceCaret(Place(0, rec.sigil + n))];
      assert Entering(rec, n) == Entering(rec, n - 1) + last;
      ApplyAppend(s, Entering(rec, n - 1), last);
      ApplyTwo(Entered(rec, s, n - 1), last[0], last[1]);
    }
  }

  /** A whole step leaves the screen as it should. */
  lemma {:induction false} StepLeaves(rec: Recording, s: Screen, entry: Entry)
    ensures ApplyAll(s, StepWrites(rec, entry)) == After(rec, s, entry)
  {
    match entry {
      case Show(i, _) =>
        ApplyTwo(s, Reset, ShowFrame(i));
      case Spin(i, row, col, glyphs, beats, hold) =>
        SpinLeaves(rec, s, i, row, col, glyphs, beats, hold);
      case Play(Type(text, row, col)) =>
        TypedIsOverlaid(rec, s, row, col, text, |text|);
        assert text[..|text|] == text;
      case Play(Paste(text, row, col)) =>
        PasteLeaves(rec, s, text, row, col);
      case Play(Gui(marker)) =>
        ApplyOne(s, Announce(marker));
      case Play(Key(key)) =>
        ApplyOne(s, Keycap(KeyGlyph(key)));
      case Play(Photograph(_)) =>
        ApplyOne(s, Keycap(""));
    }
  }

  lemma {:induction false} PasteLeaves(rec: Recording, s: Screen, text: string, row: nat, col: nat)
    ensures var entry := Entry.Play(TermPlan.Step.Paste(text, row, col));
            ApplyAll(s, StepWrites(rec, entry)) == After(rec, s, entry)
  {
    var last := [Pasted(At(rec, row, col), text), PlaceCaret(At(rec, row, col + |text|))];
    ApplyAppend(s, [Keycap(rec.shortcut)], last);
    ApplyOne(s, Keycap(rec.shortcut));
    ApplyTwo(ApplyAll(s, [Keycap(rec.shortcut)]), last[0], last[1]);
  }

  lemma {:induction false} SpinLeaves(rec: Recording, s: Screen, i: nat, row: nat, col: nat, glyphs: seq<char>,
                                      beats: nat, hold: Option<nat>)
    ensures var entry := Entry.Spin(i, row, col, glyphs, beats, hold);
            ApplyAll(s, StepWrites(rec, entry)) == After(rec, s, entry)
  {
    hide Ticks, GlyphAt;
    var n := Ticks(beats, hold);
    var most := [Reset, ShowFrame(i), AddSpin(At(rec, row, col), GlyphAt(glyphs, 0))] + SpunTo(glyphs, n);
    SpunIsTurning(rec, s, i, row, col, glyphs, n);
    ApplyMore(s, most, RemoveSpin);
    assert StepWrites(rec, Entry.Spin(i, row, col, glyphs, beats, hold)) == most + [RemoveSpin];
  }

  lemma {:induction false} StepsLeave(rec: Recording, s: Screen, script: seq<Entry>, n: nat)
    requires n <= |script|
    ensures ApplyAll(s, StepsWrites(rec, script, n)) == AfterSteps(rec, s, script, n)
  {
    hide StepWrites, After;
    if n > 0 {
      StepsLeave(rec, s, script, n - 1);
      ApplyAppend(s, StepsWrites(rec, script, n - 1), StepWrites(rec, script[n - 1]));
      StepLeaves(rec, AfterSteps(rec, s, script, n - 1), script[n - 1]);
    }
  }

  lemma {:induction false} OpenedIsReady(rec: Recording, s: Screen, captured: bool)
    ensures ApplyAll(s, Opened(rec, captured)) == Ready(rec, s, captured)
  {
    if rec.prompt && captured {
      EnteringIsEntered(rec, s, |rec.command|);
    } else {
      ApplyTwo(s, Reset, ClearKeys);
    }
  }

  /** Up to the first await of step `n`, or up to its end. */
  lemma {:induction false} SoFar(rec: Recording, s: Screen, captured: bool, n: nat)
    requires rec.script.Some? && n <= |rec.script.value|
    ensures ApplyAll(s, Opened(rec, captured) + StepsWrites(rec, rec.script.value, n)) ==
            AfterSteps(rec, Ready(rec, s, captured), rec.script.value, n)
  {
    OpenedIsReady(rec, s, captured);
    StepsLeave(rec, Ready(rec, s, captured), rec.script.value, n);
    ApplyAppend(s, Opened(rec, captured), StepsWrites(rec, rec.script.value, n));
  }

  /** What a run has written by the time it parks makes the screen seen there. */
  lemma {:induction false} DoneIsSeen(rec: Recording, s: Screen, captured: bool, pc: Pc)
    requires OnScript(rec, captured, pc)
    ensures ApplyAll(s, Done(rec, captured, pc)) == Seen(rec, s, captured, pc)
  {
    hide Opened, StepsWrites, AfterSteps, Ready, TypedTo, SpunTo, Ticks, GlyphAt, Overlaid, Turning, Entered, Entering;
    var script, ready := rec.script.value, Ready(rec, s, captured);
    match pc {
      case Typing(i) =>
        EnteringIsEntered(rec, s, i - 1);
      case Between(n) =>
        SoFar(rec, s, captured, n);
      case InType(n, i) =>
        TypingIsSeen(rec, s, captured, n, i);
      case InPaste(n) =>
        SoFar(rec, s, captured, n);
        ApplyMore(s, Opened(rec, captured) + StepsWrites(rec, script, n), Keycap(rec.shortcut));
      case Settling(n) =>
        SoFar(rec, s, captured, n + 1);
      case InSpin(n, i) =>
        SpinningIsSeen(rec, s, captured, n, i);
      case Finishing(_) =>
        WholeIsSeen(rec, s, captured);
      case Over(_, _) =>
        WholeIsSeen(rec, s, captured);
    }
  }

  lemma {:induction false} TypingIsSeen(rec: Recording, s: Screen, captured: bool, n: nat, i: nat)
    requires OnScript(rec, captured, InType(n, i))
    ensures ApplyAll(s, Done(rec, captured, InType(n, i))) == Seen(rec, s, captured, InType(n, i))
  {
    hide Opened, StepsWrites, AfterSteps, Ready, TypedTo, Overlaid;
    var Type(text, row, col) := rec.script.value[n].step;
    var lead := Opened(rec, captured) + StepsWrites(rec, rec.script.value, n);
    var at := At(rec, row, col);
    SoFar(rec, s, captured, n);
    TypedIsOverlaid(rec, ApplyAll(s, lead), row, col, text, i - 1);
    ApplyAppend(s, lead, [AddTyped(at), PlaceCaret(at)] + TypedTo(at, text, i - 1));
    hide ApplyAll, At;
  }

  lemma {:induction false} SpinningIsSeen(rec: Recording, s: Screen, captured: bool, n: nat, i: nat)
    requires OnScript(rec, captured, InSpin(n, i))
    ensures ApplyAll(s, Done(rec, captured, InSpin(n, i))) == Seen(rec, s, captured, InSpin(n, i))
  {
    hide Opened, StepsWrites, AfterSteps, Ready, SpunTo, Ticks, GlyphAt, Turning;
    var Spin(f, row, col, glyphs, _, _) := rec.script.value[n];
    var lead := Opened(rec, captured) + StepsWrites(rec, rec.script.value, n);
    SoFar(rec, s, captured, n);
    SpunIsTurning(rec, ApplyAll(s, lead), f, row, col, glyphs, i - 1);
    ApplyAppend(s, lead, [Reset, ShowFrame(f), AddSpin(At(rec, row, col), GlyphAt(glyphs, 0))] + SpunTo(glyphs, i - 1));
    hide ApplyAll, At, Cell;
  }

  lemma {:induction false} WholeIsSeen(rec: Recording, s: Screen, captured: bool)
    requires rec.hasBody && rec.script.Some?
    ensures ApplyAll(s, Whole(rec, captured)) ==
            Shows(Cleared(AfterSteps(rec, Ready(rec, s, captured), rec.script.value, |rec.script.value|)),
                  rec.frames - 1)
  {
    hide Opened, StepsWrites, AfterSteps, Ready;
    var script := rec.script.value;
    SoFar(rec, s, captured, |script|);
    var lead := Opened(rec, captured) + StepsWrites(rec, script, |script|);
    ApplyAppend(s, lead, [Reset, ShowFrame(rec.frames - 1)]);
    ApplyTwo(ApplyAll(s, lead), Reset, ShowFrame(rec.frames - 1));
  }

  // ---------------------------------------------------------------------
  // Over whole runs
  // ---------------------------------------------------------------------

  /** Run `w` began over the screen `s`; if it is the current one and still on its script, the
      screen is the one it should be. */
  ghost predicate Faithful(rec: Recording, t: Terminal, w: nat, s: Screen, captured: bool)
  {
    && w <= t.run
    && (t.run == w && w in t.sessions && OnScript(rec, captured, t.sessions[w].pc) ==>
          t.connected && t.screen == Seen(rec, s, captured, t.sessions[w].pc))
    && (w in t.sessions && Parked(t.sessions[w].pc) && t.run == w ==> OnScript(rec, captured, t.sessions[w].pc))
  }

  lemma {:induction false} CurrentIsFaithful(rec: Recording, t: Terminal, w: nat, cut: Option<nat>, s: Screen,
                                             captured: bool)
    requires w in t.sessions && Parked(t.sessions[w].pc) && Faithful(rec, t, w, s, captured) && t.run == w
    ensures Faithful(rec, OnWake(rec, t, w, cut), w, s, captured)
  {
    var pc := t.sessions[w].pc;
    SegmentAdvances(rec, captured, pc);
    var (ws, next) := Segment(rec, pc, true);
    DoneIsSeen(rec, s, captured, pc);
    DoneIsSeen(rec, s, captured, next);
    ApplyAppend(s, Done(rec, captured, pc), ws);
    hide Segment, Seen, Done, ApplyAll, OnScript;
    ThrownIsOffScript(rec, captured);
  }

  lemma {:induction false} ThrownIsOffScript(rec: Recording, captured: bool)
    ensures !OnScript(rec, captured, Finishing(Threw))
  {
  }

  lemma {:induction false} WakingIsFaithful(rec: Recording, t: Terminal, v: nat, cut: Option<nat>, w: nat, s: Screen,
                                            captured: bool)
    requires Faithful(rec, t, w, s, captured) && v in t.sessions && !t.sessions[v].pc.Over?
    ensures Faithful(rec, OnWake(rec, t, v, cut), w, s, captured)
  {
    hide Segment, Seen, Done;
    var pc := t.sessions[v].pc;
    if Parked(pc) {
      if t.run != v {
        SupersededRunsLeave(rec, pc);
        EmitNothing(t, Some(v));
        assert Cut(Segment(rec, pc, false), cut).0 == [];
      } else if v == w {
        CurrentIsFaithful(rec, t, w, cut, s, captured);
      }
    } else if v == w && t.run == w && OnScript(rec, captured, pc) {
      OverIsSeen(rec, s, captured, pc.how, t.connected);
    }
  }

  lemma {:induction false} OverIsSeen(rec: Recording, s: Screen, captured: bool, how: Outcome, announced: bool)
    requires OnScript(rec, captured, Finishing(how))
    ensures OnScript(rec, captured, Over(how, announced))
    ensures Seen(rec, s, captured, Over(how, announced)) == Seen(rec, s, captured, Finishing(how))
  {
  }

  lemma {:induction false} StepIsFaithful(rec: Recording, t: Terminal, e: Event, w: nat, s: Screen, captured: bool)
    requires Inv(rec, t) && Faithful(rec, t, w, s, captured) && w in t.sessions
    requires t.connected || t.run != w
    ensures var u := Player.Step(rec, t, e);
            Faithful(rec, u, w, s, captured) && w in u.sessions && (u.connected || u.run != w)
  {
    hide Seen, Opening, Segment, OnScript, Inv;
    if Enabled(t, e) && e.Wake? {
      WakingIsFaithful(rec, t, e.w, e.cut, w, s, captured);
    }
  }

  lemma {:induction false} RunIsFaithful(rec: Recording, t: Terminal, es: seq<Event>, w: nat, s: Screen, captured: bool)
    requires Inv(rec, t) && Faithful(rec, t, w, s, captured) && w in t.sessions
    requires t.connected || t.run != w
    ensures var u := Run(rec, t, es);
            Faithful(rec, u, w, s, captured) && w in u.sessions
    decreases |es|
  {
    hide Faithful, Player.Step;
    if es != [] {
      StepIsFaithful(rec, t, es[0], w, s, captured);
      StepKeeps(rec, t, es[0]);
      RunIsFaithful(rec, Player.Step(rec, t, es[0]), es[1..], w, s, captured);
    }
  }

  lemma {:induction false} StartIsFaithful(rec: Recording, t: Terminal)
    requires Inv(rec, t) && t.connected && rec.hasBody && rec.script.Some?
    ensures var u := Player.Step(rec, t, Start(None));
            && Faithful(rec, u, t.run + 1, t.screen, t.captured)
            && t.run + 1 in u.sessions && u.run == t.run + 1 && u.connected
  {
    assert t.captured ==> rec.prompt;
    hide Inv;
    OpeningIsSeen(rec, t.screen, t.captured);
    hide Opening, OnScript, Seen, ApplyAll;
  }

  lemma {:induction false} OpeningIsSeen(rec: Recording, s: Screen, captured: bool)
    requires rec.hasBody && rec.script.Some? && (captured ==> rec.prompt)
    ensures var (ws, pc) := Opening(rec, captured);
            OnScript(rec, captured, pc) && ApplyAll(s, ws) == Seen(rec, s, captured, pc)
  {
    OpeningBegins(rec, captured);
    var (ws, pc) := Opening(rec, captured);
    DoneIsSeen(rec, s, captured, pc);
    assert [] + ws == ws;
  }

  /** The command has been taken off the prompt row, if there is one. */
  predicate PromptTaken(rec: Recording, t: Terminal)
  {
    (t.captured ==> rec.prompt) && (t.connected ==> t.captured == rec.prompt)
  }

  lemma {:induction false} StepTakesThePrompt(rec: Recording, t: Terminal, e: Event)
    requires PromptTaken(rec, t)
    ensures PromptTaken(rec, Player.Step(rec, t, e))
  {
    hide Segment, Opening, ApplyAll, Cut;
  }

  lemma {:induction false} RunTakesThePrompt(rec: Recording, t: Terminal, es: seq<Event>)
    requires PromptTaken(rec, t)
    ensures PromptTaken(rec, Run(rec, t, es))
    decreases |es|
  {
    hide Player.Step, PromptTaken;
    if es != [] {
      StepTakesThePrompt(rec, t, es[0]);
      RunTakesThePrompt(rec, Player.Step(rec, t, es[0]), es[1..]);
    }
  }

  /** For any events whatever before a session and any during it: as long as the session is the
      current one and has not thrown, the screen is the one its script calls for at the place
      the session has reached, whatever other runs were still about. If there is a prompt row, the
      session begins by entering the command on it. */
  lemma {:induction false} TheScreenFollowsTheScript(rec: Recording, before: seq<Event>, during: seq<Event>)
    requires rec.hasBody && rec.script.Some? && Run(rec, Rendered(rec), before).connected
    ensures var t := Run(rec, Rendered(rec), before);
            var u, w := Run(rec, Player.Step(rec, t, Start(None)), during), t.run + 1;
            && w in u.sessions && t.captured == rec.prompt
            && (u.run == w && OnScript(rec, t.captured, u.sessions[w].pc) ==>
                  u.screen == Seen(rec, t.screen, t.captured, u.sessions[w].pc))
            && (u.run == w && Parked(u.sessions[w].pc) ==> OnScript(rec, t.captured, u.sessions[w].pc))
  {
    hide Seen, Opening, Player.Step;
    RenderedIsInOrder(rec);
    RunKeeps(rec, Rendered(rec), before);
    var t := Run(rec, Rendered(rec), before);
    StartIsFaithful(rec, t);
    RunTakesThePrompt(rec, Rendered(rec), before);
    StepKeeps(rec, t, Start(None));
    hide Run;
    RunIsFaithful(rec, Player.Step(rec, t, Start(None)), during, t.run + 1, t.screen, t.captured);
  }

  // ---------------------------------------------------------------------
  // The spinner
  // ---------------------------------------------------------------------

  /** A spinner planned for a glyph begins on that glyph and turns through the whole of its cycle,
      a place at every tick, over the one frame. */
  lemma {:induction false} TheSpinnerTurnsItsCycle(rec: Recording, s: Screen, captured: bool, n: nat, i: nat,
                                                   glyph: char)
    requires OnScript(rec, captured, InSpin(n, i))
    requires Some(rec.script.value[n].glyphs) == Throbber.ThrobberCycleFrom(glyph)
    ensures var Spin(f, row, col, _, _, _) := rec.script.value[n];
            var seen := Seen(rec, s, captured, InSpin(n, i));
            && (seen.active != [] ==> !seen.blank && seen.active == Only(|seen.active|, f))
            && seen.typed == [] && seen.caret == None && |seen.spun| == 1 && seen.spun[0].at == Cell(rec, row, col)
            && rec.script.value[n].glyphs != [] && rec.script.value[n].glyphs[0] == glyph
            && exists k, first: nat | 0 <= k < |Throbber.CYCLES| ::
                 && Throbber.Rotation(rec.script.value[n].glyphs, Throbber.CYCLES[k], first)
                 && seen.spun[0].text == [rec.script.value[n].glyphs[(i - 1) % |Throbber.CYCLES[k]|]]
  {
    Throbber.CycleBeginsOnTheGlyph(glyph);
    var k, first: nat :| 0 <= k < |Throbber.CYCLES| && rec.script.value[n].glyphs[0] == glyph
                         && Throbber.Rotation(rec.script.value[n].glyphs, Throbber.CYCLES[k], first);
    hide AfterSteps, Ready, Throbber.ThrobberCycleFrom, Throbber.IsThrobberGlyph, Ticks, Only;
  }
}
