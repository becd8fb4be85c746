/** The terminal element as docs-site/components/ui/secreq-terminal-element.ts updates it in
    place, one stretch between two awaits at a time. Every handler does to the element what its
    event in `Player` says. */
module TerminalElement {
  import opened Common
  import opened TermPlan
  import opened Player

  class SecreqTerminal {
    const rec: Recording
    /** The `data-active` mark of each frame. */
    const active: array<bool>
    var run: nat
    var connected: bool
    var captured: bool
    var blank: bool
    var typed: seq<Overlay>
    var spun: seq<Overlay>
    var caret: Option<Place>
    var caps: seq<string>
    var command: string
    /** Where each asynchronous playback run is parked. */
    var sessions: map<nat, Session>
    ghost var log: seq<Mark>
    ghost var ends: seq<nat>

    ghost function Shown(): Screen
      reads this, active
    {
      Screen(active[..], blank, typed, spun, caret, caps, command)
    }

    ghost function View(): Terminal
      reads this, active
    {
      Terminal(run, connected, captured, Shown(), sessions, log, ends)
    }

    ghost predicate Valid()
      reads this`sessions
    {
      active.Length == rec.frames && forall w | w in sessions :: InPlace(rec, sessions[w].pc)
    }

    constructor (rec: Recording)
      ensures this.rec == rec && Valid() && View() == Rendered(rec) && fresh(active)
    {
      this.rec := rec;
      active := new bool[rec.frames](_ => false);
      run, connected, captured := 0, false, false;
      blank, typed, spun, caret, caps, command := false, [], [], None, [], rec.command;
      sessions, log, ends := map[], [], [];
      new;
      assert active[..] == seq(rec.frames, _ => false);
    }

    // The writes.

    ghost method Logged(writer: Option<nat>, w: Write)
      modifies this`log
      ensures log == old(log) + Stamped(writer, run, [w])
    {
      log := log + Stamped(writer, run, [w]);
    }

    /** Mark frame `target` and no other; a negative target marks none. */
    method MarkOnly(target: int)
      modifies active
      ensures active[..] == seq(active.Length, k => k == target)
    {
      for k := 0 to active.Length
        invariant forall j | 0 <= j < k :: active[j] == (j == target)
      {
        active[k] := k == target;
      }
    }

    method ShowFrame(index: int, ghost writer: Option<nat>)
      modifies this`blank, this`log, active
      ensures View() == Emit(old(View()), writer, [Write.ShowFrame(index)])
    {
      Logged(writer, Write.ShowFrame(index));
      if active.Length != 0 {
        blank := index < 0;
        MarkOnly(if index < active.Length then index else active.Length - 1);
        assert active[..] == Shows(old(Shown()), index).active;
      }
      OneWrite(old(View()), View(), writer, Write.ShowFrame(index));
    }

    method Reset(ghost writer: Option<nat>)
      modifies this`typed, this`spun, this`caret, this`log
      ensures View() == Emit(old(View()), writer, [Write.Reset])
    {
      Logged(writer, Write.Reset);
      typed, spun, caret := [], [], None;
      OneWrite(old(View()), View(), writer, Write.Reset);
    }

    method ClearKeys(ghost writer: Option<nat>)
      modifies this`caps, this`log
      ensures View() == Emit(old(View()), writer, [Write.ClearKeys])
    {
      Logged(writer, Write.ClearKeys);
      caps := [];
      OneWrite(old(View()), View(), writer, Write.ClearKeys);
    }

    method ShowKey(key: string, ghost writer: Option<nat>)
      modifies this`caps, this`log
      ensures View() == Emit(old(View()), writer, [Keycap(key)])
    {
      Logged(writer, Keycap(key));
      caps := caps + [key];
      OneWrite(old(View()), View(), writer, Keycap(key));
    }

    method PlaceCaret(at: Place, ghost writer: Option<nat>)
      modifies this`caret, this`log
      ensures View() == Emit(old(View()), writer, [Write.PlaceCaret(at)])
    {
      Logged(writer, Write.PlaceCaret(at));
      caret := Some(at);
      OneWrite(old(View()), View(), writer, Write.PlaceCaret(at));
    }

    method SetCommand(text: string, ghost writer: Option<nat>)
      modifies this`command, this`log
      ensures View() == Emit(old(View()), writer, [Command(text)])
    {
      Logged(writer, Command(text));
      command := text;
      OneWrite(old(View()), View(), writer, Command(text));
    }

    method AppendTyped(at: Place, text: string, ghost writer: Option<nat>, ghost w: Write)
      requires w == (if text == "" then AddTyped(at) else Pasted(at, text)) || w == Pasted(at, text)
      modifies this`typed, this`log
      ensures View() == Emit(old(View()), writer, [w])
    {
      Logged(writer, w);
      typed := typed + [Overlay(at, text)];
      OneWrite(old(View()), View(), writer, w);
    }

    method SetTyped(text: string, ghost writer: Option<nat>)
      modifies this`typed, this`log
      ensures View() == Emit(old(View()), writer, [Write.SetTyped(text)])
    {
      Logged(writer, Write.SetTyped(text));
      if typed != [] {
        typed := typed[|typed| - 1 := typed[|typed| - 1].(text := text)];
      }
      OneWrite(old(View()), View(), writer, Write.SetTyped(text));
    }

    method AppendSpin(at: Place, glyph: string, ghost writer: Option<nat>)
      modifies this`spun, this`log
      ensures View() == Emit(old(View()), writer, [AddSpin(at, glyph)])
    {
      Logged(writer, AddSpin(at, glyph));
      spun := spun + [Overlay(at, glyph)];
      OneWrite(old(View()), View(), writer, AddSpin(at, glyph));
    }

    method SetSpin(glyph: string, ghost writer: Option<nat>)
      modifies this`spun, this`log
      ensures View() == Emit(old(View()), writer, [Write.SetSpin(glyph)])
    {
      Logged(writer, Write.SetSpin(glyph));
      if spun != [] {
        spun := spun[|spun| - 1 := spun[|spun| - 1].(text := glyph)];
      }
      OneWrite(old(View()), View(), writer, Write.SetSpin(glyph));
    }

    method RemoveSpin(ghost writer: Option<nat>)
      modifies this`spun, this`log
      ensures View() == Emit(old(View()), writer, [Write.RemoveSpin])
    {
      Logged(writer, Write.RemoveSpin);
      if spun != [] {
        spun := spun[..|spun| - 1];
      }
      OneWrite(old(View()), View(), writer, Write.RemoveSpin);
    }

    /** The event, which draws nothing. */
    method AnnounceGui(marker: Marker, ghost writer: Option<nat>)
      modifies this`log
      ensures View() == Emit(old(View()), writer, [Announce(marker)])
    {
      Logged(writer, Announce(marker));
      OneWrite(old(View()), View(), writer, Announce(marker));
    }

    // The handlers.

    method RestoreCommand()
      modifies this`command, this`log
      ensures View() == Emit(old(View()), None, Restored(rec, old(View())))
    {
      if captured {
        SetCommand(rec.command, None);
      } else {
        EmitNothing(View(), None);
      }
    }

    method Stop()
      requires Valid()
      modifies this, active
      ensures Valid() && View() == OnStop(rec, old(View()))
    {
      hide Emit, InPlace;
      run := run + 1;
      ghost var t := View();
      Reset(None);
      ClearKeys(None);
      EmitTwice(t, None, [Write.Reset], [Write.ClearKeys]);
      assert [Write.Reset] + [Write.ClearKeys] == [Write.Reset, Write.ClearKeys];
      CapturedKept(t, None, [Write.Reset, Write.ClearKeys]);
      RestoreCommand();
      EmitTwice(t, None, [Write.Reset, Write.ClearKeys], Restored(rec, t));
      ShowFrame(active.Length - 1, None);
      EmitTwice(t, None, [Write.Reset, Write.ClearKeys] + Restored(rec, t), [Write.ShowFrame(rec.frames - 1)]);
    }

    method OnConnected()
      requires Valid() && !connected
      modifies this, active
      ensures Valid() && View() == OnConnect(rec, old(View()))
    {
      hide Emit;
      connected := true;
      if rec.prompt && !captured {
        captured := true;
      }
      assert View() == old(View()).(connected := true, captured := captured || rec.prompt);
      ShowFrame(active.Length - 1, None);
    }

    method OnDisconnected()
      requires Valid() && connected
      modifies this
      ensures Valid() && View() == OnDisconnect(rec, old(View()))
    {
      hide Emit;
      run := run + 1;
      connected := false;
      RestoreCommand();
    }

    /** `start`, up to the first await of the run it begins. */
    method Start()
      requires Valid()
      modifies this, active
      ensures Valid() && View() == OnStart(rec, old(View()), None)
    {
      run := run + 1;
      OpeningInPlace(rec, captured);
      var pc := Open(run);
      sessions := sessions[run := Session(pc, captured)];
    }

    method Open(w: nat) returns (next: Pc)
      requires Valid() && run == w
      modifies this`blank, this`typed, this`spun, this`caret, this`caps, this`command, this`log, active
      ensures View() == Emit(old(View()), Some(w), Opening(rec, old(captured)).0)
      ensures next == Opening(rec, old(captured)).1
    {
      hide Emit, Segment;
      ghost var t := View();
      if !rec.hasBody {
        EmitNothing(t, Some(w));
        return Finishing(NoBody);
      }
      if rec.script.None? {
        EmitNothing(t, Some(w));
        return Finishing(Threw);
      }
      Reset(Some(w));
      ClearKeys(Some(w));
      EmitTwice(t, Some(w), [Write.Reset], [Write.ClearKeys]);
      assert [Write.Reset] + [Write.ClearKeys] == [Write.Reset, Write.ClearKeys];
      if !rec.prompt {
        next := PlayStep(w, 0);
        EmitTwice(t, Some(w), [Write.Reset, Write.ClearKeys], Segment(rec, Between(0), true).0);
        return;
      }
      if !captured {
        return Between(0);
      }
      EnterCommand(w);
      EmitTwice(t, Some(w), [Write.Reset, Write.ClearKeys],
                [Write.ShowFrame(-1), Command(""), Write.PlaceCaret(Place(0, rec.sigil))]);
      assert [Write.Reset, Write.ClearKeys] + [Write.ShowFrame(-1), Command(""), Write.PlaceCaret(Place(0, rec.sigil))]
          == [Write.Reset, Write.ClearKeys, Write.ShowFrame(-1), Command(""), Write.PlaceCaret(Place(0, rec.sigil))];
      return if rec.command == "" then Between(0) else Typing(1);
    }

    method EnterCommand(w: nat)
      modifies this`blank, this`caret, this`command, this`log, active
      ensures View() == Emit(old(View()), Some(w), [Write.ShowFrame(-1), Command(""),
                                                    Write.PlaceCaret(Place(0, rec.sigil))])
    {
      hide Emit;
      ghost var t := View();
      ShowFrame(-1, Some(w));
      SetCommand("", Some(w));
      EmitTwice(t, Some(w), [Write.ShowFrame(-1)], [Command("")]);
      PlaceCaret(Place(0, rec.sigil), Some(w));
      EmitTwice(t, Some(w), [Write.ShowFrame(-1)] + [Command("")], [Write.PlaceCaret(Place(0, rec.sigil))]);
      assert [Write.ShowFrame(-1)] + [Command("")] + [Write.PlaceCaret(Place(0, rec.sigil))]
          == [Write.ShowFrame(-1), Command(""), Write.PlaceCaret(Place(0, rec.sigil))];
    }

    method ShowFresh(index: int, w: nat)
      modifies this`blank, this`typed, this`spun, this`caret, this`log, active
      ensures View() == Emit(old(View()), Some(w), [Write.Reset, Write.ShowFrame(index)])
    {
      hide Emit;
      ghost var t := View();
      Reset(Some(w));
      ShowFrame(index, Some(w));
      EmitTwice(t, Some(w), [Write.Reset], [Write.ShowFrame(index)]);
      assert [Write.Reset] + [Write.ShowFrame(index)] == [Write.Reset, Write.ShowFrame(index)];
    }

    /** The loop of `#playScript` at step `n`, up to its next await; or what follows the loop. */
    method PlayStep(w: nat, n: nat) returns (next: Pc)
      requires Valid()
      modifies this`blank, this`typed, this`spun, this`caret, this`caps, this`log, active
      ensures View() == Emit(old(View()), Some(w), Segment(rec, Between(n), run == w).0)
      ensures next == Segment(rec, Between(n), run == w).1
    {
      hide Emit;
      var script := if rec.script.Some? then rec.script.value else [];
      EmitNothing(View(), Some(w));
      if n >= |script| {
        if run != w {
          return Finishing(Superseded);
        }
        ShowFresh(active.Length - 1, w);
        return Finishing(Completed);
      }
      if run != w {
        return Finishing(Superseded);
      }
      next := BeginStep(w, script[n], n);
    }

    method BeginStep(w: nat, entry: Entry, n: nat) returns (next: Pc)
      modifies this`blank, this`typed, this`spun, this`caret, this`caps, this`log, active
      ensures View() == Emit(old(View()), Some(w), StepBegins(rec, entry, n).0)
      ensures next == StepBegins(rec, entry, n).1
    {
      hide Emit;
      ghost var t := View();
      match entry {
        case Show(i, _) =>
          ShowFresh(i, w);
          return Between(n + 1);
        case Spin(i, row, col, glyphs, _, _) =>
          ShowFresh(i, w);
          var cell := AddSpin(Place(row + rec.FrameRow(), col), GlyphAt(glyphs, 0));
          AppendSpin(cell.spunAt, cell.first, Some(w));
          EmitTwice(t, Some(w), [Write.Reset, Write.ShowFrame(i)], [cell]);
          assert [Write.Reset, Write.ShowFrame(i)] + [cell] == [Write.Reset, Write.ShowFrame(i), cell];
          return InSpin(n, 1);
        case Play(Type(text, row, col)) =>
          var at := Place(row + rec.FrameRow(), col);
          AppendTyped(at, "", Some(w), AddTyped(at));
          PlaceCaret(at, Some(w));
          EmitTwice(t, Some(w), [AddTyped(at)], [Write.PlaceCaret(at)]);
          assert [AddTyped(at)] + [Write.PlaceCaret(at)] == [AddTyped(at), Write.PlaceCaret(at)];
          return if text == "" then Settling(n) else InType(n, 1);
        case Play(Paste(_, _, _)) =>
          ShowKey(rec.shortcut, Some(w));
          return InPaste(n);
        case Play(Gui(marker)) =>
          AnnounceGui(marker, Some(w));
          return Between(n + 1);
        case Play(Key(key)) =>
          ShowKey(KeyGlyph(key), Some(w));
          return Between(n + 1);
        case Play(Photograph(_)) =>
          ShowKey("", Some(w));
          return Between(n + 1);
      }
    }

    /** One character of the command, unless the run was superseded while it slept. */
    method EnterOne(w: nat, i: nat) returns (next: Pc)
      modifies this`caret, this`command, this`log
      ensures View() == Emit(old(View()), Some(w), Segment(rec, Typing(i), run == w).0)
      ensures next == Segment(rec, Typing(i), run == w).1
    {
      hide Emit;
      ghost var t := View();
      if run != w {
        EmitNothing(t, Some(w));
        return Between(0);
      }
      var text := rec.command[..Upto(i, rec.command)];
      SetCommand(text, Some(w));
      PlaceCaret(Place(0, rec.sigil + i), Some(w));
      EmitTwice(t, Some(w), [Command(text)], [Write.PlaceCaret(Place(0, rec.sigil + i))]);
      assert [Command(text)] + [Write.PlaceCaret(Place(0, rec.sigil + i))]
          == [Command(text), Write.PlaceCaret(Place(0, rec.sigil + i))];
      next := if i >= |rec.command| then Between(0) else Typing(i + 1);
    }

    /** One character of an answer, unless the run was superseded while it slept. */
    method TypeOne(w: nat, step: Step, n: nat, i: nat) returns (next: Pc)
      requires step.Type?
      modifies this`typed, this`caret, this`log
      ensures var at := Place(step.row + rec.FrameRow(), step.col + i);
              var writes := [Write.SetTyped(step.text[..Upto(i, step.text)]), Write.PlaceCaret(at)];
              View() == Emit(old(View()), Some(w), if run == w then writes else [])
      ensures next == if run != w || i >= |step.text| then Settling(n) else InType(n, i + 1)
    {
      hide Emit;
      ghost var t := View();
      if run != w {
        EmitNothing(t, Some(w));
        return Settling(n);
      }
      var at := Place(step.row + rec.FrameRow(), step.col + i);
      var text := step.text[..Upto(i, step.text)];
      SetTyped(text, Some(w));
      PlaceCaret(at, Some(w));
      EmitTwice(t, Some(w), [Write.SetTyped(text)], [Write.PlaceCaret(at)]);
      assert [Write.SetTyped(text)] + [Write.PlaceCaret(at)] == [Write.SetTyped(text), Write.PlaceCaret(at)];
      next := if i >= |step.text| then Settling(n) else InType(n, i + 1);
    }

    /** The whole of a pasted answer, unless the run was superseded while it slept. */
    method PasteAll(w: nat, step: Step, n: nat) returns (next: Pc)
      requires step.Paste?
      modifies this`typed, this`caret, this`log
      ensures var row := step.row + rec.FrameRow();
              var writes := [Pasted(Place(row, step.col), step.text),
                             Write.PlaceCaret(Place(row, step.col + |step.text|))];
              View() == Emit(old(View()), Some(w), if run == w then writes else [])
      ensures next == Settling(n)
    {
      hide Emit;
      ghost var t := View();
      next := Settling(n);
      if run != w {
        EmitNothing(t, Some(w));
        return;
      }
      var row := step.row + rec.FrameRow();
      var pasted := Pasted(Place(row, step.col), step.text);
      var caretAt := Place(row, step.col + |step.text|);
      AppendTyped(Place(row, step.col), step.text, Some(w), pasted);
      PlaceCaret(caretAt, Some(w));
      EmitTwice(t, Some(w), [pasted], [Write.PlaceCaret(caretAt)]);
      assert [pasted] + [Write.PlaceCaret(caretAt)] == [pasted, Write.PlaceCaret(caretAt)];
    }

    /** One turn of the indicator, unless the run was superseded while it slept. */
    method Turn(w: nat, entry: Entry, n: nat, i: nat) returns (next: Pc)
      requires entry.Spin?
      modifies this`spun, this`log
      ensures var turned := [Write.SetSpin(GlyphAt(entry.glyphs, i))];
              var last := i >= Ticks(entry.beats, entry.hold);
              && View() == Emit(old(View()), Some(w), if run != w then []
                                                      else if last then turned + [Write.RemoveSpin] else turned)
              && next == if run != w || last then Between(n + 1) else InSpin(n, i + 1)
    {
      hide Emit, Ticks;
      ghost var t := View();
      if run != w {
        EmitNothing(t, Some(w));
        return Between(n + 1);
      }
      var glyph := GlyphAt(entry.glyphs, i);
      SetSpin(glyph, Some(w));
      if i >= Ticks(entry.beats, entry.hold) {
        RemoveSpin(Some(w));
        EmitTwice(t, Some(w), [Write.SetSpin(glyph)], [Write.RemoveSpin]);
        next := Between(n + 1);
      } else {
        next := InSpin(n, i + 1);
      }
    }

    /** What a run does on waking, up to its next await. Each stretch that writes tests the token
        itself; the one that only begins the beat after a step does not. */
    method Resume(w: nat, pc: Pc) returns (next: Pc)
      requires Valid() && Parked(pc) && InPlace(rec, pc)
      modifies this`blank, this`typed, this`spun, this`caret, this`caps, this`command, this`log, active
      ensures View() == Emit(old(View()), Some(w), Segment(rec, pc, run == w).0)
      ensures next == Segment(rec, pc, run == w).1
    {
      hide Emit;
      EmitNothing(View(), Some(w));
      match pc {
        case Typing(i) =>
          next := EnterOne(w, i);
        case Between(n) =>
          next := PlayStep(w, n);
        case InType(n, i) =>
          next := TypeOne(w, rec.script.value[n].step, n, i);
        case InPaste(n) =>
          next := PasteAll(w, rec.script.value[n].step, n);
        case Settling(n) =>
          next := Between(n + 1);
        case InSpin(n, i) =>
          next := Turn(w, rec.script.value[n], n, i);
      }
    }

    /** A run's timer, or the promise it awaits, comes due. */
    method Wake(w: nat)
      requires Valid() && w in sessions && !sessions[w].pc.Over?
      modifies this, active
      ensures Valid() && View() == OnWake(rec, old(View()), w, None)
    {
      hide Segment, Opening;
      var s := sessions[w];
      if s.pc.Finishing? {
        AnnounceEnd(w);
        return;
      }
      SegmentInPlace(rec, s.pc, run == w);
      var next := Resume(w, s.pc);
      sessions := sessions[w := s.(pc := next)];
    }

    method AnnounceEnd(w: nat)
      requires Valid() && w in sessions && sessions[w].pc.Finishing?
      modifies this`sessions, this`ends
      ensures Valid() && View() == OnFinish(old(View()), w)
    {
      var announces := run == w && connected;
      if announces {
        ends := ends + [w];
      }
      sessions := sessions[w := sessions[w].(pc := Over(sessions[w].pc.how, announces))];
    }
  }

  /** A run parked inside a step is parked inside one of the kind it says. */
  predicate InPlace(rec: Recording, pc: Pc)
  {
    var script := if rec.script.Some? then rec.script.value else [];
    match pc
    case InType(n, _) => n < |script| && script[n].Play? && script[n].step.Type?
    case InPaste(n) => n < |script| && script[n].Play? && script[n].step.Paste?
    case InSpin(n, _) => n < |script| && script[n].Spin?
    case _ => true
  }

  lemma {:induction false} SegmentInPlace(rec: Recording, pc: Pc, current: bool)
    requires InPlace(rec, pc)
    ensures InPlace(rec, Segment(rec, pc, current).1)
  {
    hide GlyphAt, KeyGlyph, Ticks;
  }

  lemma {:induction false} OpeningInPlace(rec: Recording, captured: bool)
    ensures InPlace(rec, Opening(rec, captured).1)
  {
    SegmentInPlace(rec, Between(0), true);
    hide Segment;
  }

  lemma {:induction false} CapturedKept(t: Terminal, writer: Option<nat>, ws: seq<Write>)
    ensures Emit(t, writer, ws).captured == t.captured
  {
  }

  lemma {:induction false} OneWrite(t: Terminal, u: Terminal, writer: Option<nat>, w: Write)
    requires u == t.(screen := Apply(t.screen, w), log := t.log + Stamped(writer, t.run, [w]))
    ensures u == Emit(t, writer, [w])
  {
    hide Apply;
    ApplyMore(t.screen, [], w);
    assert [] + [w] == [w];
  }

  lemma {:induction false} EmitTwice(t: Terminal, writer: Option<nat>, a: seq<Write>, b: seq<Write>)
    ensures Emit(Emit(t, writer, a), writer, b) == Emit(t, writer, a + b)
  {
    hide ApplyAll;
    ApplyAppend(t.screen, a, b);
    assert Stamped(writer, t.run, a + b) == Stamped(writer, t.run, a) + Stamped(writer, t.run, b);
    assert t.log + Stamped(writer, t.run, a) + Stamped(writer, t.run, b) == t.log + Stamped(writer, t.run, a + b);
  }
}
