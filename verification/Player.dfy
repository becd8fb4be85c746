/** The playback of docs-site/components/ui/secreq-terminal-element.ts: any number of overlapping
    runs, each parked between two awaits, cancelled by a token they check on waking. */
module Player {
  import opened Common
  import opened TermPlan
  import Throbber
  import Windows
  import Turns

  // ---------------------------------------------------------------------
  // The terminal on the page
  // ---------------------------------------------------------------------

  /** What the server rendered: the script (None does not parse), the prompt row if there is
      one, the number of frames, and the paste shortcut of the reader's desktop. */
  datatype Recording = Recording(
    hasBody: bool, script: Option<seq<Entry>>, prompt: bool, command: string, sigil: nat,
    frames: nat, shortcut: string)
  {
    /** How far down the recorded rows sit. */
    function FrameRow(): nat { if prompt then 1 else 0 }
  }

  datatype Overlay = Overlay(at: Place, text: string)

  /** What playback can change: which frames are marked, whether the body is blanked on purpose,
      the typing and spinner overlays, the caret, the keycaps, and the prompt row's text. */
  datatype Screen = Screen(
    active: seq<bool>, blank: bool, typed: seq<Overlay>, spun: seq<Overlay>, caret: Option<Place>,
    caps: seq<string>, command: string)

  datatype Write =
    | Reset
    | ClearKeys
    | ShowFrame(index: int)
    | PlaceCaret(at: Place)
    | AddTyped(typedAt: Place)
    | SetTyped(text: string)
    | Pasted(pastedAt: Place, pasted: string)
    | AddSpin(spunAt: Place, first: string)
    | SetSpin(glyph: string)
    | RemoveSpin
    | Keycap(key: string)
    | Command(command: string)
    | Announce(marker: Marker)

  /** Only frame `index` of `n`, the index clamped. */
  function Only(n: nat, index: nat): seq<bool>
  {
    seq(n, k => k == index || (k == n - 1 && index >= n))
  }

  function SetLast(s: seq<Overlay>, text: string): seq<Overlay>
  {
    if s == [] then s else s[|s| - 1 := s[|s| - 1].(text := text)]
  }

  function Shows(s: Screen, index: int): Screen
  {
    if |s.active| == 0 then s
    else if index < 0 then s.(active := seq(|s.active|, _ => false), blank := true)
    else s.(active := Only(|s.active|, index), blank := false)
  }

  function Apply(s: Screen, w: Write): Screen
  {
    match w
    case Reset => s.(typed := [], spun := [], caret := None)
    case ClearKeys => s.(caps := [])
    case ShowFrame(index) => Shows(s, index)
    case PlaceCaret(at) => s.(caret := Some(at))
    case AddTyped(at) => s.(typed := s.typed + [Overlay(at, "")])
    case SetTyped(text) => s.(typed := SetLast(s.typed, text))
    case Pasted(at, text) => s.(typed := s.typed + [Overlay(at, text)])
    case AddSpin(at, glyph) => s.(spun := s.spun + [Overlay(at, glyph)])
    case SetSpin(glyph) => s.(spun := SetLast(s.spun, glyph))
    case RemoveSpin => s.(spun := if s.spun == [] then [] else s.spun[..|s.spun| - 1])
    case Keycap(key) => s.(caps := s.caps + [key])
    case Command(text) => s.(command := text)
    case Announce(_) => s
  }

  function ApplyAll(s: Screen, ws: seq<Write>): Screen
  {
    if ws == [] then s else Apply(ApplyAll(s, ws[..|ws| - 1]), ws[|ws| - 1])
  }

  // ---------------------------------------------------------------------
  // One run
  // ---------------------------------------------------------------------

  datatype Outcome = Completed | Superseded | Threw | NoBody

  /** Where a run is parked: in `#typeCommand` before character `i`; in `#playScript` before
      step `n`; in `#type`, `#paste` or `#spin` for step `n`; in the beat after one; or done,
      with `#announceEnd` still to come or behind it. */
  datatype Pc =
    | Typing(i: nat)
    | Between(n: nat)
    | InType(n: nat, i: nat)
    | InPaste(n: nat)
    | Settling(n: nat)
    | InSpin(n: nat, i: nat)
    | Finishing(how: Outcome)
    | Over(how: Outcome, announced: bool)

  predicate Parked(pc: Pc)
  {
    !pc.Finishing? && !pc.Over?
  }

  /** The run got to the end of the script. */
  predicate HasCompleted(pc: Pc)
  {
    (pc.Finishing? || pc.Over?) && pc.how == Completed
  }

  function KeyGlyph(key: string): string
  {
    match key
    case "Enter" => "⏎"
    case "Up" => "↑"
    case "Down" => "↓"
    case "Left" => "←"
    case "Right" => "→"
    case "Tab" => "⇥"
    case "Escape" => "esc"
    case "Backspace" => "⌫"
    case "Space" => "␣"
    case _ => key
  }

  /** `glyphs[i % glyphs.length]`, as text. */
  function GlyphAt(glyphs: seq<char>, i: nat): string
  {
    if glyphs == [] then "" else [glyphs[i % |glyphs|]]
  }

  /** What a parked run writes before its next await, and where it parks then. `current` says
      whether it wakes with its token still the current one; the stretches that test it do so
      each on its own, and the stretch between a step's overlay and the beat after it does not. */
  function Segment(rec: Recording, pc: Pc, current: bool): (seq<Write>, Pc)
  {
    var script := if rec.script.Some? then rec.script.value else [];
    match pc
    case Typing(i) =>
      if !current then ([], Between(0))
      else
        ([Command(rec.command[..Upto(i, rec.command)]), PlaceCaret(Place(0, rec.sigil + i))],
         if i >= |rec.command| then Between(0) else Typing(i + 1))
    case Between(n) =>
      if n >= |script| then
        if !current then ([], Finishing(Superseded))
        else ([Reset, ShowFrame(rec.frames - 1)], Finishing(Completed))
      else if !current then ([], Finishing(Superseded))
      else StepBegins(rec, script[n], n)
    case InType(n, i) =>
      if !current then ([], Settling(n))
      else if n < |script| && script[n].Play? && script[n].step.Type? then
        var Type(text, row, col) := script[n].step;
        ([SetTyped(text[..Upto(i, text)]), PlaceCaret(Place(row + rec.FrameRow(), col + i))],
         if i >= |text| then Settling(n) else InType(n, i + 1))
      else ([], pc)
    case InPaste(n) =>
      if !current then ([], Settling(n))
      else if n < |script| && script[n].Play? && script[n].step.Paste? then
        var Paste(text, row, col) := script[n].step;
        var at := row + rec.FrameRow();
        ([Pasted(Place(at, col), text), PlaceCaret(Place(at, col + |text|))], Settling(n))
      else ([], pc)
    case Settling(n) => ([], Between(n + 1))
    case InSpin(n, i) =>
      if !current then ([], Between(n + 1))
      else if n < |script| && script[n].Spin? then
        var turned := [SetSpin(GlyphAt(script[n].glyphs, i))];
        if i >= Ticks(script[n].beats, script[n].hold) then (turned + [RemoveSpin], Between(n + 1))
        else (turned, InSpin(n, i + 1))
      else ([], pc)
    case Finishing(_) => ([], pc)
    case Over(_, _) => ([], pc)
  }

  /** Step `n` of the script, up to its first await. */
  function StepBegins(rec: Recording, entry: Entry, n: nat): (seq<Write>, Pc)
  {
    match entry
    case Show(i, _) => ([Reset, ShowFrame(i)], Between(n + 1))
    case Spin(i, row, col, glyphs, _, _) =>
      ([Reset, ShowFrame(i), AddSpin(Place(row + rec.FrameRow(), col), GlyphAt(glyphs, 0))], InSpin(n, 1))
    case Play(Type(text, row, col)) =>
      var at := Place(row + rec.FrameRow(), col);
      ([AddTyped(at), PlaceCaret(at)], if text == "" then Settling(n) else InType(n, 1))
    case Play(Paste(_, _, _)) => ([Keycap(rec.shortcut)], InPaste(n))
    case Play(Gui(marker)) => ([Announce(marker)], Between(n + 1))
    case Play(Key(key)) => ([Keycap(KeyGlyph(key))], Between(n + 1))
    case Play(Photograph(_)) => ([Keycap("")], Between(n + 1))
  }

  function Upto(i: nat, text: string): nat
  {
    if i <= |text| then i else |text|
  }

  /** `#start` up to its first await; `captured` says whether `#command` has been read yet. */
  function Opening(rec: Recording, captured: bool): (seq<Write>, Pc)
  {
    if !rec.hasBody then ([], Finishing(NoBody))
    else if rec.script.None? then ([], Finishing(Threw))
    else if !rec.prompt then
      var (writes, next) := Segment(rec, Between(0), true);
      ([Reset, ClearKeys] + writes, next)
    else if !captured then ([Reset, ClearKeys], Between(0))
    else
      ([Reset, ClearKeys, ShowFrame(-1), Command(""), PlaceCaret(Place(0, rec.sigil))],
       if rec.command == "" then Between(0) else Typing(1))
  }

  // ---------------------------------------------------------------------
  // The element
  // ---------------------------------------------------------------------

  /** A playback run; `captured` as it was at the start. */
  datatype Session = Session(pc: Pc, captured: bool)

  /** One write, by a run or by the element itself, under the token current at that moment. */
  datatype Mark = Mark(writer: Option<nat>, token: nat, write: Write)

  datatype Terminal = Terminal(
    run: nat, connected: bool, captured: bool, screen: Screen, sessions: map<nat, Session>,
    log: seq<Mark>, ends: seq<nat>)

  function Stamped(writer: Option<nat>, token: nat, ws: seq<Write>): seq<Mark>
  {
    seq(|ws|, k requires 0 <= k < |ws| => Mark(writer, token, ws[k]))
  }

  function Emit(t: Terminal, writer: Option<nat>, ws: seq<Write>): Terminal
  {
    t.(screen := ApplyAll(t.screen, ws), log := t.log + Stamped(writer, t.run, ws))
  }

  function Park(t: Terminal, w: nat, pc: Pc): Terminal
    requires w in t.sessions
  {
    t.(sessions := t.sessions[w := t.sessions[w].(pc := pc)])
  }

  datatype Event =
    | Connect
    | Disconnect
    /** `cut` is how many writes the run makes before throwing; None when it does not throw. */
    | Start(cut: Option<nat>)
    | Stop
    | Wake(w: nat, cut: Option<nat>)

  function Cut(segment: (seq<Write>, Pc), cut: Option<nat>): (seq<Write>, Pc)
  {
    if cut.Some? && cut.value <= |segment.0| then (segment.0[..cut.value], Finishing(Threw)) else segment
  }

  function Restored(rec: Recording, t: Terminal): seq<Write>
  {
    if t.captured then [Command(rec.command)] else []
  }

  function OnStart(rec: Recording, t: Terminal, cut: Option<nat>): Terminal
  {
    var w := t.run + 1;
    var (writes, pc) := Cut(Opening(rec, t.captured), cut);
    Emit(t.(run := w, sessions := t.sessions[w := Session(pc, t.captured)]), Some(w), writes)
  }

  function OnStop(rec: Recording, t: Terminal): Terminal
  {
    Emit(t.(run := t.run + 1), None, [Reset, ClearKeys] + Restored(rec, t) + [ShowFrame(rec.frames - 1)])
  }

  function OnConnect(rec: Recording, t: Terminal): Terminal
  {
    Emit(t.(connected := true, captured := t.captured || rec.prompt), None, [ShowFrame(rec.frames - 1)])
  }

  function OnDisconnect(rec: Recording, t: Terminal): Terminal
  {
    Emit(t.(run := t.run + 1, connected := false), None, Restored(rec, t))
  }

  /** `#announceEnd`. */
  function OnFinish(t: Terminal, w: nat): Terminal
    requires w in t.sessions && t.sessions[w].pc.Finishing?
  {
    var announces := t.run == w && t.connected;
    Park(t, w, Over(t.sessions[w].pc.how, announces)).(ends := if announces then t.ends + [w] else t.ends)
  }

  function OnWake(rec: Recording, t: Terminal, w: nat, cut: Option<nat>): Terminal
    requires w in t.sessions && !t.sessions[w].pc.Over?
  {
    var pc := t.sessions[w].pc;
    if pc.Finishing? then OnFinish(t, w)
    else
      var (writes, next) := Cut(Segment(rec, pc, t.run == w), cut);
      Park(Emit(t, Some(w), writes), w, next)
  }

  predicate Enabled(t: Terminal, e: Event)
  {
    match e
    case Connect => !t.connected
    case Disconnect => t.connected
    case Start(_) => true
    case Stop => true
    case Wake(w, _) => w in t.sessions && !t.sessions[w].pc.Over?
  }

  function Step(rec: Recording, t: Terminal, e: Event): Terminal
  {
    if !Enabled(t, e) then t
    else match e
      case Connect => OnConnect(rec, t)
      case Disconnect => OnDisconnect(rec, t)
      case Start(cut) => OnStart(rec, t, cut)
      case Stop => OnStop(rec, t)
      case Wake(w, cut) => OnWake(rec, t, w, cut)
  }

  function Run(rec: Recording, t: Terminal, es: seq<Event>): Terminal
    decreases |es|
  {
    if es == [] then t else Run(rec, Step(rec, t, es[0]), es[1..])
  }

  /** As the server rendered it. */
  function Rendered(rec: Recording): Terminal
  {
    Terminal(0, false, false, Screen(seq(rec.frames, _ => false), false, [], [], None, [], rec.command), map[], [], [])
  }

  // ---------------------------------------------------------------------
  // The whole session, as one uninterrupted run would write it
  // ---------------------------------------------------------------------

  function TypedTo(at: Place, text: string, n: nat): seq<Write>
    requires n <= |text|
  {
    if n == 0 then []
    else TypedTo(at, text, n - 1) + [SetTyped(text[..n]), PlaceCaret(Place(at.row, at.col + n))]
  }

  function SpunTo(glyphs: seq<char>, n: nat): seq<Write>
  {
    if n == 0 then [] else SpunTo(glyphs, n - 1) + [SetSpin(GlyphAt(glyphs, n))]
  }

  function EnteredTo(rec: Recording, n: nat): seq<Write>
    requires n <= |rec.command|
  {
    if n == 0 then []
    else EnteredTo(rec, n - 1) + [Command(rec.command[..n]), PlaceCaret(Place(0, rec.sigil + n))]
  }

  /** The command, typed onto the prompt row as far as character `n`. */
  function Entering(rec: Recording, n: nat): seq<Write>
    requires n <= |rec.command|
  {
    [Reset, ClearKeys, ShowFrame(-1), Command(""), PlaceCaret(Place(0, rec.sigil))] + EnteredTo(rec, n)
  }

  /** Everything before the first step. */
  function Opened(rec: Recording, captured: bool): seq<Write>
  {
    if rec.prompt && captured then Entering(rec, |rec.command|) else [Reset, ClearKeys]
  }

  function At(rec: Recording, row: nat, col: nat): Place
  {
    Place(row + rec.FrameRow(), col)
  }

  /** A whole step. */
  function StepWrites(rec: Recording, entry: Entry): seq<Write>
  {
    match entry
    case Show(i, _) => [Reset, ShowFrame(i)]
    case Spin(i, row, col, glyphs, beats, hold) =>
      [Reset, ShowFrame(i), AddSpin(At(rec, row, col), GlyphAt(glyphs, 0))]
      + SpunTo(glyphs, Ticks(beats, hold)) + [RemoveSpin]
    case Play(Type(text, row, col)) =>
      [AddTyped(At(rec, row, col)), PlaceCaret(At(rec, row, col))] + TypedTo(At(rec, row, col), text, |text|)
    case Play(Paste(text, row, col)) =>
      [Keycap(rec.shortcut)] + [Pasted(At(rec, row, col), text), PlaceCaret(At(rec, row, col + |text|))]
    case Play(Gui(marker)) => [Announce(marker)]
    case Play(Key(key)) => [Keycap(KeyGlyph(key))]
    case Play(Photograph(_)) => [Keycap("")]
  }

  function StepsWrites(rec: Recording, script: seq<Entry>, n: nat): seq<Write>
    requires n <= |script|
  {
    if n == 0 then [] else StepsWrites(rec, script, n - 1) + StepWrites(rec, script[n - 1])
  }

  /** All that an undisturbed run writes. */
  function Whole(rec: Recording, captured: bool): seq<Write>
  {
    if !rec.hasBody || rec.script.None? then []
    else
      Opened(rec, captured) + StepsWrites(rec, rec.script.value, |rec.script.value|)
      + [Reset, ShowFrame(rec.frames - 1)]
  }

  /** A place an undisturbed run can be parked. */
  predicate OnScript(rec: Recording, captured: bool, pc: Pc)
  {
    && rec.hasBody && rec.script.Some?
    && var script := rec.script.value;
       match pc
       case Typing(i) => rec.prompt && captured && 0 < i <= |rec.command|
       case Between(n) => n <= |script|
       case InType(n, i) => n < |script| && script[n].Play? && script[n].step.Type? && 0 < i <= |script[n].step.text|
       case InPaste(n) => n < |script| && script[n].Play? && script[n].step.Paste?
       case Settling(n) => n < |script|
       case InSpin(n, i) => n < |script| && script[n].Spin? && 0 < i <= Ticks(script[n].beats, script[n].hold)
       case Finishing(how) => how == Completed
       case Over(how, _) => how == Completed
  }

  /** What an undisturbed run has written by the time it parks there. */
  function Done(rec: Recording, captured: bool, pc: Pc): seq<Write>
    requires OnScript(rec, captured, pc)
  {
    var script := rec.script.value;
    var lead := Opened(rec, captured);
    match pc
    case Typing(i) => Entering(rec, i - 1)
    case Between(n) => lead + StepsWrites(rec, script, n)
    case InType(n, i) =>
      var Type(text, row, col) := script[n].step;
      lead + StepsWrites(rec, script, n)
      + ([AddTyped(At(rec, row, col)), PlaceCaret(At(rec, row, col))] + TypedTo(At(rec, row, col), text, i - 1))
    case InPaste(n) => lead + StepsWrites(rec, script, n) + [Keycap(rec.shortcut)]
    case Settling(n) => lead + StepsWrites(rec, script, n + 1)
    case InSpin(n, i) =>
      var Spin(f, row, col, glyphs, _, _) := script[n];
      lead + StepsWrites(rec, script, n)
      + ([Reset, ShowFrame(f), AddSpin(At(rec, row, col), GlyphAt(glyphs, 0))] + SpunTo(glyphs, i - 1))
    case Finishing(_) => Whole(rec, captured)
    case Over(_, _) => Whole(rec, captured)
  }

  lemma {:induction false} Assoc(a: seq<Write>, b: seq<Write>, c: seq<Write>)
    ensures a + (b + c) == a + b + c
  {
  }

  ghost predicate Advances(rec: Recording, captured: bool, pc: Pc)
    requires OnScript(rec, captured, pc)
  {
    var (ws, next) := Segment(rec, pc, true);
    && OnScript(rec, captured, next)
    && Done(rec, captured, pc) + ws == Done(rec, captured, next)
  }

  lemma {:induction false} TypingAdvances(rec: Recording, i: nat)
    requires OnScript(rec, true, Typing(i))
    ensures Advances(rec, true, Typing(i))
  {
    var ws := Segment(rec, Typing(i), true).0;
    assert EnteredTo(rec, i) == EnteredTo(rec, i - 1) + ws;
    Assoc([Reset, ClearKeys, ShowFrame(-1), Command(""), PlaceCaret(Place(0, rec.sigil))], EnteredTo(rec, i - 1), ws);
    assert i == |rec.command| ==> Opened(rec, true) + StepsWrites(rec, rec.script.value, 0) == Entering(rec, i);
  }

  lemma {:induction false} BetweenIs(rec: Recording, n: nat)
    requires rec.script.Some? && n < |rec.script.value|
    ensures Segment(rec, Between(n), true) == StepBegins(rec, rec.script.value[n], n)
  {
    hide StepBegins;
  }

  lemma {:induction false} PlainStep(rec: Recording, captured: bool, n: nat)
    requires OnScript(rec, captured, Between(n)) && n < |rec.script.value|
    requires rec.script.value[n].Show? || (rec.script.value[n].Play? && !rec.script.value[n].step.Type?)
    ensures Advances(rec, captured, Between(n))
  {
    hide Opened, Ticks, GlyphAt, KeyGlyph, SpunTo, TypedTo, Segment;
    BetweenIs(rec, n);
    var script := rec.script.value;
    var (lead, steps, whole) := (Opened(rec, captured), StepsWrites(rec, script, n), StepWrites(rec, script[n]));
    assert StepsWrites(rec, script, n + 1) == steps + whole;
    Assoc(lead, steps, whole);
  }

  lemma {:induction false} SpinBegins(rec: Recording, captured: bool, n: nat)
    requires OnScript(rec, captured, Between(n)) && n < |rec.script.value| && rec.script.value[n].Spin?
    ensures Advances(rec, captured, Between(n))
  {
    hide Opened, GlyphAt, StepsWrites;
    var ws := Segment(rec, Between(n), true).0;
    assert ws + SpunTo(rec.script.value[n].glyphs, 0) == ws;
  }

  lemma {:induction false} TypeBegins(rec: Recording, captured: bool, n: nat)
    requires OnScript(rec, captured, Between(n)) && n < |rec.script.value|
    requires rec.script.value[n].Play? && rec.script.value[n].step.Type?
    ensures Advances(rec, captured, Between(n))
  {
    hide Opened;
    var script := rec.script.value;
    var ws := Segment(rec, Between(n), true).0;
    var text, at := script[n].step.text, At(rec, script[n].step.row, script[n].step.col);
    assert ws + TypedTo(at, text, 0) == ws;
    if text == "" {
      assert StepsWrites(rec, script, n + 1) == StepsWrites(rec, script, n) + ws;
      Assoc(Opened(rec, captured), StepsWrites(rec, script, n), ws);
    }
  }

  lemma {:induction false} BetweenAdvances(rec: Recording, captured: bool, n: nat)
    requires OnScript(rec, captured, Between(n))
    ensures Advances(rec, captured, Between(n))
  {
    if n < |rec.script.value| {
      match rec.script.value[n] {
        case Spin(_, _, _, _, _, _) => SpinBegins(rec, captured, n);
        case Play(Type(_, _, _)) => TypeBegins(rec, captured, n);
        case _ => PlainStep(rec, captured, n);
      }
    } else {
      hide Opened, StepsWrites;
    }
  }

  lemma {:induction false} TypeAdvances(rec: Recording, captured: bool, n: nat, i: nat)
    requires OnScript(rec, captured, InType(n, i))
    ensures Advances(rec, captured, InType(n, i))
  {
    hide Opened;
    var script := rec.script.value;
    var text, at := script[n].step.text, At(rec, script[n].step.row, script[n].step.col);
    var ws := Segment(rec, InType(n, i), true).0;
    var (lead, steps) := (Opened(rec, captured), StepsWrites(rec, script, n));
    var placed := [AddTyped(at), PlaceCaret(at)];
    assert TypedTo(at, text, i) == TypedTo(at, text, i - 1) + ws;
    Assoc(placed, TypedTo(at, text, i - 1), ws);
    Assoc(lead + steps, placed + TypedTo(at, text, i - 1), ws);
    if i == |text| {
      assert StepsWrites(rec, script, n + 1) == steps + (placed + TypedTo(at, text, i));
      Assoc(lead, steps, placed + TypedTo(at, text, i));
    }
  }

  lemma {:induction false} PasteAdvances(rec: Recording, captured: bool, n: nat)
    requires OnScript(rec, captured, InPaste(n))
    ensures Advances(rec, captured, InPaste(n))
  {
    hide Opened;
    var script := rec.script.value;
    var ws := Segment(rec, InPaste(n), true).0;
    var (lead, steps) := (Opened(rec, captured), StepsWrites(rec, script, n));
    assert StepsWrites(rec, script, n + 1) == steps + ([Keycap(rec.shortcut)] + ws);
    Assoc(lead, steps, [Keycap(rec.shortcut)] + ws);
    Assoc(lead + steps, [Keycap(rec.shortcut)], ws);
  }

  lemma {:induction false} SpinAdvances(rec: Recording, captured: bool, n: nat, i: nat)
    requires OnScript(rec, captured, InSpin(n, i))
    ensures Advances(rec, captured, InSpin(n, i))
  {
    hide Opened, Ticks, GlyphAt;
    var script := rec.script.value;
    var glyphs, at := script[n].glyphs, At(rec, script[n].row, script[n].col);
    var turned := [SetSpin(GlyphAt(glyphs, i))];
    var (lead, steps) := (Opened(rec, captured), StepsWrites(rec, script, n));
    var drawn := [Reset, ShowFrame(script[n].i), AddSpin(at, GlyphAt(glyphs, 0))];
    assert SpunTo(glyphs, i) == SpunTo(glyphs, i - 1) + turned;
    Assoc(drawn, SpunTo(glyphs, i - 1), turned);
    Assoc(lead + steps, drawn + SpunTo(glyphs, i - 1), turned);
    if i == Ticks(script[n].beats, script[n].hold) {
      var whole := drawn + SpunTo(glyphs, i) + [RemoveSpin];
      assert StepsWrites(rec, script, n + 1) == steps + whole;
      Assoc(lead, steps, whole);
      Assoc(lead + steps, drawn + SpunTo(glyphs, i), [RemoveSpin]);
      Assoc(lead + steps + (drawn + SpunTo(glyphs, i - 1)), turned, [RemoveSpin]);
    }
  }

  /** Each segment takes the run from one place on the script to the next, writing just what
      lies between. */
  lemma {:induction false} SegmentAdvances(rec: Recording, captured: bool, pc: Pc)
    requires OnScript(rec, captured, pc) && Parked(pc)
    ensures Advances(rec, captured, pc)
  {
    match pc {
      case Typing(i) => TypingAdvances(rec, i);
      case Between(n) => BetweenAdvances(rec, captured, n);
      case InType(n, i) => TypeAdvances(rec, captured, n, i);
      case InPaste(n) => PasteAdvances(rec, captured, n);
      case Settling(n) =>
      case InSpin(n, i) => SpinAdvances(rec, captured, n, i);
    }
  }

  /** How much of the script is left: steps, then stages of the step, then characters or ticks. */
  function Left(rec: Recording, pc: Pc): (nat, nat, nat)
    requires OnScript(rec, true, pc) || OnScript(rec, false, pc)
  {
    var script := rec.script.value;
    match pc
    case Typing(i) => (|script| + 1, 0, |rec.command| - i)
    case Between(n) => (|script| - n, 2, 0)
    case InType(n, i) => (|script| - n, 1, |script[n].step.text| - i)
    case InPaste(n) => (|script| - n, 1, 0)
    case Settling(n) => (|script| - n, 0, 0)
    case InSpin(n, i) => (|script| - n, 1, Ticks(script[n].beats, script[n].hold) - i)
    case Finishing(_) => (0, 0, 0)
    case Over(_, _) => (0, 0, 0)
  }

  /** An undisturbed run gets to the end of the script, so whatever it has written is how the
      whole session begins. */
  lemma {:induction false} DoneIsPrefix(rec: Recording, captured: bool, pc: Pc)
    requires OnScript(rec, captured, pc)
    ensures Done(rec, captured, pc) <= Whole(rec, captured)
    decreases Left(rec, pc).0, Left(rec, pc).1, Left(rec, pc).2
  {
    if Parked(pc) {
      hide Done, Whole;
      SegmentAdvances(rec, captured, pc);
      DoneIsPrefix(rec, captured, Segment(rec, pc, true).1);
    }
  }

  lemma {:induction false} OpeningBegins(rec: Recording, captured: bool)
    requires captured ==> rec.prompt
    ensures var (ws, next) := Opening(rec, captured);
            if rec.hasBody && rec.script.Some? then OnScript(rec, captured, next) && ws == Done(rec, captured, next)
            else ws == [] == Whole(rec, captured) && next.Finishing? && !next.how.Completed?
  {
    if rec.hasBody && rec.script.Some? {
      var script := rec.script.value;
      assert StepsWrites(rec, script, 0) == [];
      assert OnScript(rec, captured, Between(0)) && Done(rec, captured, Between(0)) == Opened(rec, captured);
      if !rec.prompt {
        SegmentAdvances(rec, captured, Between(0));
      } else if captured {
        assert EnteredTo(rec, 0) == [];
      }
    }
  }

  // ---------------------------------------------------------------------
  // What a run has written
  // ---------------------------------------------------------------------

  /** The writes of run `w`, in order. */
  function Written(log: seq<Mark>, w: nat): seq<Write>
  {
    if log == [] then []
    else
      var rest := Written(log[..|log| - 1], w);
      var last := log[|log| - 1];
      if last.writer == Some(w) then rest + [last.write] else rest
  }

  lemma {:induction false} WrittenSnoc(log: seq<Mark>, mark: Mark, w: nat)
    ensures Written(log + [mark], w) == Written(log, w) + if mark.writer == Some(w) then [mark.write] else []
  {
    assert (log + [mark])[..|log|] == log;
    assert Written(log, w) + [] == Written(log, w);
  }

  lemma {:induction false} StampedSnoc(log: seq<Mark>, writer: Option<nat>, token: nat, ws: seq<Write>)
    requires ws != []
    ensures var k := |ws| - 1;
            log + Stamped(writer, token, ws) == log + Stamped(writer, token, ws[..k]) + [Mark(writer, token, ws[k])]
  {
  }

  lemma {:induction false} WrittenMore(log: seq<Mark>, writer: Option<nat>, token: nat, ws: seq<Write>, w: nat)
    ensures Written(log + Stamped(writer, token, ws), w) == Written(log, w) + if writer == Some(w) then ws else []
    decreases |ws|
  {
    if ws == [] {
      assert log + Stamped(writer, token, ws) == log;
    } else {
      hide Written, Stamped;
      var k := |ws| - 1;
      WrittenMore(log, writer, token, ws[..k], w);
      StampedSnoc(log, writer, token, ws);
      WrittenSnoc(log + Stamped(writer, token, ws[..k]), Mark(writer, token, ws[k]), w);
      Assoc(Written(log, w), ws[..k], [ws[k]]);
      assert ws[..k] + [ws[k]] == ws;
    }
  }

  // ---------------------------------------------------------------------
  // The invariant of every run of events
  // ---------------------------------------------------------------------

  /** One session against what it has written. */
  ghost predicate SessionOk(rec: Recording, t: Terminal, w: nat)
    requires w in t.sessions
  {
    var s := t.sessions[w];
    var wrote := Written(t.log, w);
    && 0 < w <= t.run
    && (s.captured ==> t.captured)
    && wrote <= Whole(rec, s.captured)
    && (w == t.run && Parked(s.pc) ==> OnScript(rec, s.captured, s.pc) && wrote == Done(rec, s.captured, s.pc))
    && (HasCompleted(s.pc) ==> wrote == Whole(rec, s.captured))
    && (w in t.ends <==> s.pc.Over? && s.pc.announced)
  }

  ghost predicate LogOk(t: Terminal)
  {
    && (forall k | 0 <= k < |t.log| && t.log[k].writer.Some? :: t.log[k].token == t.log[k].writer.value)
    && forall w: nat | w !in t.sessions :: Written(t.log, w) == []
  }

  ghost predicate Inv(rec: Recording, t: Terminal)
  {
    && LogOk(t) && Distinct(t.ends)
    && (t.captured ==> rec.prompt)
    && (forall w | w in t.ends :: w in t.sessions)
    && forall w | w in t.sessions :: SessionOk(rec, t, w)
  }

  /** The element itself writes, under a token nobody holds. */
  lemma {:induction false} OwnWritesKeep(rec: Recording, t: Terminal, u: Terminal, ws: seq<Write>)
    requires Inv(rec, t) && t.run <= u.run && (t.captured ==> u.captured) && (u.captured ==> rec.prompt)
    requires u.sessions == t.sessions && u.ends == t.ends && u.log == t.log + Stamped(None, u.run, ws)
    ensures Inv(rec, u)
    ensures forall w: nat :: Written(u.log, w) == Written(t.log, w)
  {
    forall w
      ensures Written(u.log, w) == Written(t.log, w)
    {
      WrittenMore(t.log, None, u.run, ws, w);
    }
    forall w | w in u.sessions
      ensures SessionOk(rec, u, w)
    {
      assert SessionOk(rec, t, w);
    }
  }

  /** The current run writes, and parks on the script or finishes. */
  lemma {:induction false} RunWritesKeep(rec: Recording, t: Terminal, u: Terminal, w: nat, s: Session, ws: seq<Write>)
    requires Inv(rec, t) && w == u.run && w > 0 && t.run <= w && t.captured == u.captured
    requires w !in t.ends && !s.pc.Over? && (s.captured ==> t.captured)
    requires u.sessions == t.sessions[w := s] && u.ends == t.ends && u.log == t.log + Stamped(Some(w), w, ws)
    requires Written(t.log, w) + ws <= Whole(rec, s.captured)
    requires Parked(s.pc) ==> OnScript(rec, s.captured, s.pc) && Written(t.log, w) + ws == Done(rec, s.captured, s.pc)
    requires s.pc == Finishing(Completed) ==> Written(t.log, w) + ws == Whole(rec, s.captured)
    ensures Inv(rec, u)
    ensures forall v: nat | v != w :: Written(u.log, v) == Written(t.log, v)
  {
    hide Whole, Done, OnScript;
    forall v
      ensures Written(u.log, v) == Written(t.log, v) + if v == w then ws else []
    {
      WrittenMore(t.log, Some(w), w, ws, v);
    }
    forall v | v in u.sessions
      ensures SessionOk(rec, u, v)
    {
      assert v != w ==> SessionOk(rec, t, v);
    }
  }

  /** What one event lets earlier runs do: nothing. */
  ghost predicate Silent(t: Terminal, u: Terminal, w: nat)
  {
    Written(u.log, w) == Written(t.log, w) && (w in u.ends <==> w in t.ends)
  }

  /** The event takes the token away from every run there is. */
  predicate Supersedes(e: Event)
  {
    e.Start? || e.Stop? || e.Disconnect?
  }

  lemma {:induction false} CutKeepsPrefix(lead: seq<Write>, segment: (seq<Write>, Pc), cut: Option<nat>)
    ensures var (ws, next) := Cut(segment, cut);
            lead + ws <= lead + segment.0 && (next == Finishing(Threw) || (ws, next) == segment)
  {
  }

  lemma {:induction false} StartKeeps(rec: Recording, t: Terminal, cut: Option<nat>)
    requires Inv(rec, t)
    ensures var u := OnStart(rec, t, cut);
            Inv(rec, u) && u.run == t.run + 1 && forall w: nat | w <= t.run :: Silent(t, u, w)
  {
    hide Opening, Whole, Done, OnScript, Written;
    var w := t.run + 1;
    assert w !in t.sessions by {
      assert w in t.sessions ==> SessionOk(rec, t, w);
    }
    OpeningBegins(rec, t.captured);
    var opening := Opening(rec, t.captured);
    var (ws, pc) := Cut(opening, cut);
    CutKeepsPrefix([], opening, cut);
    if rec.hasBody && rec.script.Some? {
      DoneIsPrefix(rec, t.captured, opening.1);
      DoneWhole(rec, t.captured, opening.1);
    }
    assert [] + ws == ws && [] + opening.0 == opening.0;
    var u := OnStart(rec, t, cut);
    assert !pc.Over? by { OpeningIsNotOver(rec, t.captured); }
    RunWritesKeep(rec, t, u, w, Session(pc, t.captured), ws);
  }

  lemma {:induction false} DoneWhole(rec: Recording, captured: bool, pc: Pc)
    requires OnScript(rec, captured, pc)
    ensures !Parked(pc) ==> pc.how == Completed && Done(rec, captured, pc) == Whole(rec, captured)
  {
    hide Whole;
  }

  lemma {:induction false} OpeningIsNotOver(rec: Recording, captured: bool)
    ensures !Opening(rec, captured).1.Over?
  {
  }

  lemma {:induction false} SegmentIsNotOver(rec: Recording, pc: Pc, current: bool)
    requires Parked(pc)
    ensures !Segment(rec, pc, current).1.Over?
  {
    hide GlyphAt, KeyGlyph, Ticks;
  }

  /** How many wakes a superseded run still needs to leave. */
  function StepsToLeave(pc: Pc): nat
  {
    match pc
    case Typing(_) => 2
    case Between(_) => 1
    case InType(_, _) => 3
    case InPaste(_) => 3
    case Settling(_) => 2
    case InSpin(_, _) => 2
    case Finishing(_) => 0
    case Over(_, _) => 0
  }

  /** Wherever it is parked, a run that was superseded writes nothing on waking, and is on its way
      out: within three wakes it has left the script, and never as one that completed it. */
  lemma {:induction false} SupersededRunsLeave(rec: Recording, pc: Pc)
    requires Parked(pc)
    ensures var (ws, next) := Segment(rec, pc, false);
            && ws == [] && StepsToLeave(next) < StepsToLeave(pc) <= 3
            && (Parked(next) || next == Finishing(Superseded))
  {
  }

  lemma {:induction false} EmitNothing(t: Terminal, writer: Option<nat>)
    ensures Emit(t, writer, []) == t
  {
    assert t.log + Stamped(writer, t.run, []) == t.log;
  }

  /** The stretch no test guards writes nothing, whoever is current. */
  lemma {:induction false} UntestedStretchIsSilent(rec: Recording, pc: Pc)
    requires Parked(pc) && Segment(rec, pc, true) == Segment(rec, pc, false)
    ensures pc.Settling? && Segment(rec, pc, true).0 == []
  {
    hide GlyphAt, KeyGlyph, Ticks;
  }

  lemma {:induction false} WakeKeeps(rec: Recording, t: Terminal, w: nat, cut: Option<nat>)
    requires Inv(rec, t) && w in t.sessions && Parked(t.sessions[w].pc)
    ensures var u := OnWake(rec, t, w, cut);
            Inv(rec, u) && u.run == t.run && forall v: nat | v < t.run :: Silent(t, u, v)
  {
    hide Segment, Whole, Done, OnScript, Written;
    assert SessionOk(rec, t, w);
    var s := t.sessions[w];
    var u := OnWake(rec, t, w, cut);
    SegmentIsNotOver(rec, s.pc, t.run == w);
    if t.run == w {
      SegmentAdvances(rec, s.captured, s.pc);
      var segment := Segment(rec, s.pc, true);
      var (ws, next) := Cut(segment, cut);
      CutKeepsPrefix(Written(t.log, w), segment, cut);
      DoneIsPrefix(rec, s.captured, segment.1);
      DoneWhole(rec, s.captured, segment.1);
      RunWritesKeep(rec, t, u, w, s.(pc := next), ws);
    } else {
      SupersededRunsLeave(rec, s.pc);
      EmitNothing(t, Some(w));
      ParkKeeps(rec, t, w, Cut(Segment(rec, s.pc, false), cut).1);
    }
  }

  lemma {:induction false} ParkKeeps(rec: Recording, t: Terminal, w: nat, pc: Pc)
    requires Inv(rec, t) && w in t.sessions && w != t.run && !t.sessions[w].pc.Over?
    requires Parked(pc) || pc == Finishing(Superseded) || pc == Finishing(Threw)
    ensures Inv(rec, Park(t, w, pc))
  {
    hide Whole, Done, OnScript, Written;
    var u := Park(t, w, pc);
    forall v | v in u.sessions
      ensures SessionOk(rec, u, v)
    {
      assert SessionOk(rec, t, v);
    }
  }

  lemma {:induction false} FinishKeeps(rec: Recording, t: Terminal, w: nat)
    requires Inv(rec, t) && w in t.sessions && t.sessions[w].pc.Finishing?
    ensures var u := OnFinish(t, w);
            Inv(rec, u) && u.run == t.run && forall v: nat | v < t.run :: Silent(t, u, v)
  {
    hide Whole, Done, OnScript, Written;
    var u := OnFinish(t, w);
    assert SessionOk(rec, t, w);
    forall v | v in u.sessions
      ensures SessionOk(rec, u, v)
    {
      assert SessionOk(rec, t, v);
    }
  }

  /** One event: the invariant is kept, superseded runs write and announce nothing, and a
      start, stop or disconnect supersedes every run there was. */
  lemma {:induction false} StepKeeps(rec: Recording, t: Terminal, e: Event)
    requires Inv(rec, t)
    ensures var u := Step(rec, t, e);
            && Inv(rec, u)
            && u.run == (if Enabled(t, e) && Supersedes(e) then t.run + 1 else t.run)
            && (forall w: nat | w < t.run :: Silent(t, u, w))
            && (Supersedes(e) ==> Silent(t, u, t.run))
  {
    hide Written, OnStart, Whole, SessionOk;
    if Enabled(t, e) {
      match e {
        case Connect =>
          OwnWritesKeep(rec, t, OnConnect(rec, t), [ShowFrame(rec.frames - 1)]);
        case Disconnect =>
          OwnWritesKeep(rec, t, OnDisconnect(rec, t), Restored(rec, t));
        case Start(cut) =>
          StartKeeps(rec, t, cut);
        case Stop =>
          OwnWritesKeep(rec, t, OnStop(rec, t), [Reset, ClearKeys] + Restored(rec, t) + [ShowFrame(rec.frames - 1)]);
        case Wake(w, cut) =>
          if t.sessions[w].pc.Finishing? {
            FinishKeeps(rec, t, w);
          } else {
            WakeKeeps(rec, t, w, cut);
          }
      }
    }
  }

  lemma {:induction false} RunKeeps(rec: Recording, t: Terminal, es: seq<Event>)
    requires Inv(rec, t)
    ensures var u := Run(rec, t, es);
            Inv(rec, u) && t.run <= u.run && forall w: nat | w < t.run :: Silent(t, u, w)
    decreases |es|
  {
    hide Inv, Written, Step;
    if es != [] {
      StepKeeps(rec, t, es[0]);
      var mid, u := Step(rec, t, es[0]), Run(rec, t, es);
      RunKeeps(rec, mid, es[1..]);
      forall w: nat | w < t.run
        ensures Silent(t, u, w)
      {
        assert Silent(t, mid, w) && Silent(mid, u, w);
      }
    }
  }

  lemma {:induction false} RenderedIsInOrder(rec: Recording)
    ensures Inv(rec, Rendered(rec))
  {
  }

  // ---------------------------------------------------------------------
  // Run-token safety
  // ---------------------------------------------------------------------

  /** In every run of events, whatever a playback run wrote it wrote while its own token was the
      current one. */
  lemma {:induction false} OnlyTheCurrentRunWrites(rec: Recording, es: seq<Event>, k: nat)
    requires k < |Run(rec, Rendered(rec), es).log|
    ensures var mark := Run(rec, Rendered(rec), es).log[k];
            mark.writer.Some? ==> mark.writer.value == mark.token
  {
    RenderedIsInOrder(rec);
    RunKeeps(rec, Rendered(rec), es);
  }

  /** No run announces an end twice. */
  lemma {:induction false} EachRunAnnouncesOnce(rec: Recording, es: seq<Event>)
    ensures Distinct(Run(rec, Rendered(rec), es).ends)
  {
    RenderedIsInOrder(rec);
    RunKeeps(rec, Rendered(rec), es);
  }

  /** After a start, a stop or a disconnect, every run there was writes nothing and announces
      nothing, for ever. */
  lemma {:induction false} EarlierRunsStaySilent(rec: Recording, before: seq<Event>, e: Event, after: seq<Event>,
                                                 w: nat)
    requires Supersedes(e) && Enabled(Run(rec, Rendered(rec), before), e)
    requires w <= Run(rec, Rendered(rec), before).run
    ensures var t := Run(rec, Rendered(rec), before);
            Silent(t, Run(rec, Step(rec, t, e), after), w)
  {
    hide Written, Step;
    RenderedIsInOrder(rec);
    RunKeeps(rec, Rendered(rec), before);
    var t := Run(rec, Rendered(rec), before);
    StepKeeps(rec, t, e);
    RunKeeps(rec, Step(rec, t, e), after);
    assert Silent(t, Step(rec, t, e), w) && Silent(Step(rec, t, e), Run(rec, Step(rec, t, e), after), w);
  }

  /** However runs overlap, what one has written is how its whole session begins; and a run
      that completed wrote all of it, in order, with nothing missed or repeated. */
  lemma {:induction false} RunsFollowTheScript(rec: Recording, es: seq<Event>, w: nat)
    requires w in Run(rec, Rendered(rec), es).sessions
    ensures var t := Run(rec, Rendered(rec), es);
            var s := t.sessions[w];
            && Written(t.log, w) <= Whole(rec, s.captured)
            && (HasCompleted(s.pc) ==> Written(t.log, w) == Whole(rec, s.captured))
  {
    RenderedIsInOrder(rec);
    RunKeeps(rec, Rendered(rec), es);
    hide Run, Whole, Written, OnScript, Done;
    assert SessionOk(rec, Run(rec, Rendered(rec), es), w);
  }

  // ---------------------------------------------------------------------
  // The window markers a run announces
  // ---------------------------------------------------------------------

  function Announced(ws: seq<Write>): seq<Marker>
  {
    if ws == [] then []
    else if ws[0].Announce? then [ws[0].marker] + Announced(ws[1..]) else Announced(ws[1..])
  }

  lemma {:induction false} AnnouncedAppend(a: seq<Write>, b: seq<Write>)
    ensures Announced(a + b) == Announced(a) + Announced(b)
  {
    if a == [] {
      assert a + b == b;
    } else {
      assert (a + b)[1..] == a[1..] + b;
      AnnouncedAppend(a[1..], b);
    }
  }

  lemma {:induction false} NoneAnnounced(ws: seq<Write>)
    requires forall k | 0 <= k < |ws| :: !ws[k].Announce?
    ensures Announced(ws) == []
  {
    if ws != [] {
      NoneAnnounced(ws[1..]);
    }
  }

  lemma {:induction false} TypingIsQuiet(at: Place, text: string, n: nat)
    requires n <= |text|
    ensures forall k | 0 <= k < |TypedTo(at, text, n)| :: !TypedTo(at, text, n)[k].Announce?
    decreases n
  {
    if n > 0 {
      TypingIsQuiet(at, text, n - 1);
    }
  }

  lemma {:induction false} SpinningIsQuiet(glyphs: seq<char>, n: nat)
    ensures forall k | 0 <= k < |SpunTo(glyphs, n)| :: !SpunTo(glyphs, n)[k].Announce?
    decreases n
  {
    if n > 0 {
      SpinningIsQuiet(glyphs, n - 1);
    }
  }

  lemma {:induction false} EnteringIsQuiet(rec: Recording, n: nat)
    requires n <= |rec.command|
    ensures forall k | 0 <= k < |EnteredTo(rec, n)| :: !EnteredTo(rec, n)[k].Announce?
    decreases n
  {
    if n > 0 {
      EnteringIsQuiet(rec, n - 1);
    }
  }

  lemma {:induction false} StepAnnounces(rec: Recording, entry: Entry)
    ensures Announced(StepWrites(rec, entry)) == Windows.Markers(if entry.Play? then [entry.step] else [])
  {
    hide Ticks, GlyphAt, KeyGlyph, TypedTo, SpunTo;
    if entry.Play? {
      Windows.MarkerOf(entry.step);
    }
    if entry.Play? && entry.step.Gui? {
      var announce := [Announce(entry.step.marker)];
      assert announce[1..] == [] && Announced(announce) == [entry.step.marker];
    } else {
      match entry {
        case Spin(_, _, _, glyphs, beats, hold) => SpinningIsQuiet(glyphs, Ticks(beats, hold));
        case Play(Type(text, row, col)) => TypingIsQuiet(At(rec, row, col), text, |text|);
        case _ =>
      }
      NoneAnnounced(StepWrites(rec, entry));
    }
  }

  lemma {:induction false} StepsAnnounce(rec: Recording, script: seq<Entry>, n: nat)
    requires n <= |script|
    ensures Announced(StepsWrites(rec, script, n)) == Windows.Markers(Played(script, n))
    decreases n
  {
    if n == 0 {
      NoMarkers();
    } else {
      StepsAnnounce(rec, script, n - 1);
      OneMoreAnnounced(rec, script, n);
    }
  }

  lemma {:induction false} OneMoreAnnounced(rec: Recording, script: seq<Entry>, n: nat)
    requires 0 < n <= |script|
    requires Announced(StepsWrites(rec, script, n - 1)) == Windows.Markers(Played(script, n - 1))
    ensures Announced(StepsWrites(rec, script, n)) == Windows.Markers(Played(script, n))
  {
    hide StepWrites, Announced, Windows.Markers;
    var last := if script[n - 1].Play? then [script[n - 1].step] else [];
    StepAnnounces(rec, script[n - 1]);
    AnnouncedAppend(StepsWrites(rec, script, n - 1), StepWrites(rec, script[n - 1]));
    assert Played(script, n) == Played(script, n - 1) + last;
    Windows.MarkersAppend(Played(script, n - 1), last);
  }

  lemma {:induction false} NoMarkers()
    ensures Windows.Markers([]) == [] && Announced([]) == []
  {
  }

  lemma {:induction false} OpenedIsQuiet(rec: Recording, captured: bool)
    ensures Announced(Opened(rec, captured)) == []
  {
    EnteringIsQuiet(rec, |rec.command|);
    NoneAnnounced(Opened(rec, captured));
  }

  lemma {:induction false} ClosingIsQuiet(rec: Recording)
    ensures Announced([Reset, ShowFrame(rec.frames - 1)]) == []
  {
    NoneAnnounced([Reset, ShowFrame(rec.frames - 1)]);
  }

  /** A whole session announces the recording's markers, in the recording's order. */
  lemma {:induction false} WholeAnnouncesTheMarkers(rec: Recording, captured: bool, steps: seq<Step>,
                                                    frames: seq<Frame>, cuts: seq<nat>)
    requires rec.hasBody && rec.script.Some? && Planned(steps, |steps|, frames, rec.script.value, cuts)
    ensures Announced(Whole(rec, captured)) == Windows.Markers(steps)
  {
    hide Planned, StepWrites, Opened, Announced;
    var script := rec.script.value;
    StepsAnnounce(rec, script, |script|);
    PlanConserves(steps, frames, script, cuts);
    Windows.MarkersOfOthers(steps, |steps|);
    assert steps[..|steps|] == steps;
    OpenedIsQuiet(rec, captured);
    var closing := [Reset, ShowFrame(rec.frames - 1)];
    ClosingIsQuiet(rec);
    AnnouncedAppend(Opened(rec, captured), StepsWrites(rec, script, |script|));
    AnnouncedAppend(Opened(rec, captured) + StepsWrites(rec, script, |script|), closing);
  }

  // ---------------------------------------------------------------------
  // What the flow around the terminal hears
  // ---------------------------------------------------------------------

  function Writes(log: seq<Mark>): seq<Write>
  {
    seq(|log|, k requires 0 <= k < |log| => log[k].write)
  }

  lemma {:induction false} WritesMore(log: seq<Mark>, writer: Option<nat>, token: nat, ws: seq<Write>)
    ensures Announced(Writes(log + Stamped(writer, token, ws))) == Announced(Writes(log)) + Announced(ws)
  {
    assert Writes(log + Stamped(writer, token, ws)) == Writes(log) + ws;
    AnnouncedAppend(Writes(log), ws);
  }

  ghost predicate EndsWith(all: seq<Marker>, tail: seq<Marker>)
  {
    |tail| <= |all| && all[|all| - |tail|..] == tail
  }

  /** The markers heard last are the current run's. */
  ghost predicate CurrentHeardLast(t: Terminal)
  {
    t.run in t.sessions ==> EndsWith(Announced(Writes(t.log)), Announced(Written(t.log, t.run)))
  }

  lemma {:induction false} BothHear(t: Terminal, u: Terminal, w: nat, ws: seq<Write>)
    requires u.run == w && u.log == t.log + Stamped(Some(w), w, ws)
    requires EndsWith(Announced(Writes(t.log)), Announced(Written(t.log, w)))
    ensures CurrentHeardLast(u)
  {
    hide Announced, Writes, Written;
    WritesMore(t.log, Some(w), w, ws);
    WrittenMore(t.log, Some(w), w, ws, w);
    AnnouncedAppend(Written(t.log, w), ws);
    var all, mine, more := Announced(Writes(t.log)), Announced(Written(t.log, w)), Announced(ws);
    assert all == all[..|all| - |mine|] + mine;
    assert all + more == all[..|all| - |mine|] + (mine + more);
  }

  lemma {:induction false} StepHeard(rec: Recording, t: Terminal, e: Event)
    requires Inv(rec, t) && CurrentHeardLast(t)
    ensures CurrentHeardLast(Step(rec, t, e))
  {
    hide Written, Whole, Opening, Segment, Announced, Writes, SessionOk;
    var u := Step(rec, t, e);
    StepKeeps(rec, t, e);
    NobodyHolds(rec, t);
    if Enabled(t, e) {
      match e {
        case Connect => QuietWrites(t, u, [ShowFrame(rec.frames - 1)]);
        case Disconnect =>
        case Stop =>
        case Start(cut) =>
          var ws := Cut(Opening(rec, t.captured), cut).0;
          NothingHeard(t.log, u.run);
          BothHear(t, u, u.run, ws);
        case Wake(w, cut) =>
          if Parked(t.sessions[w].pc) {
            if t.run == w {
              BothHear(t, u, w, Cut(Segment(rec, t.sessions[w].pc, true), cut).0);
            } else {
              SupersededRunsLeave(rec, t.sessions[w].pc);
              EmitNothing(t, Some(w));
            }
          }
      }
    }
  }

  lemma {:induction false} NothingHeard(log: seq<Mark>, w: nat)
    requires Written(log, w) == []
    ensures EndsWith(Announced(Writes(log)), Announced(Written(log, w)))
  {
  }

  lemma {:induction false} NobodyHolds(rec: Recording, t: Terminal)
    requires Inv(rec, t)
    ensures t.run + 1 !in t.sessions && Written(t.log, t.run + 1) == []
  {
    assert t.run + 1 in t.sessions ==> SessionOk(rec, t, t.run + 1);
  }

  lemma {:induction false} QuietWrites(t: Terminal, u: Terminal, ws: seq<Write>)
    requires CurrentHeardLast(t) && forall k | 0 <= k < |ws| :: !ws[k].Announce?
    requires u.run == t.run && u.sessions == t.sessions && u.log == t.log + Stamped(None, t.run, ws)
    ensures CurrentHeardLast(u)
  {
    hide Announced, Writes, Written;
    NoneAnnounced(ws);
    WritesMore(t.log, None, t.run, ws);
    WrittenMore(t.log, None, t.run, ws, t.run);
    assert Announced(Writes(t.log)) + [] == Announced(Writes(t.log));
    assert Written(t.log, t.run) + [] == Written(t.log, t.run);
  }

  lemma {:induction false} RunHeard(rec: Recording, t: Terminal, es: seq<Event>)
    requires Inv(rec, t) && CurrentHeardLast(t)
    ensures CurrentHeardLast(Run(rec, t, es))
    decreases |es|
  {
    hide Inv, CurrentHeardLast, Step;
    if es != [] {
      StepKeeps(rec, t, es[0]);
      StepHeard(rec, t, es[0]);
      RunHeard(rec, Step(rec, t, es[0]), es[1..]);
    }
  }

  /** The flow's up flag, set and cleared by every marker the terminal has ever announced. */
  function FlowUp(t: Terminal): bool
  {
    Windows.UpFlag(false, Announced(Writes(t.log)))
  }

  /** While the current run plays a recording that was accepted, from its first marker on, the
      flow's up flag says whether a window is up at that point of the recording, whatever
      earlier runs left behind; and it is off once the run has completed. */
  lemma {:induction false} FlagFollowsPlayback(rec: Recording, steps: seq<Step>, frames: seq<Frame>, cuts: seq<nat>,
                                               es: seq<Event>)
    requires rec.hasBody && rec.script.Some? && Planned(steps, |steps|, frames, rec.script.value, cuts)
    requires Windows.Accepted(Windows.Markers(steps)) && Windows.NoStray(Windows.Markers(steps))
    requires Run(rec, Rendered(rec), es).run in Run(rec, Rendered(rec), es).sessions
    ensures var t := Run(rec, Rendered(rec), es);
            var ms := Windows.Markers(steps);
            var heard := Announced(Written(t.log, t.run));
            var pc := t.sessions[t.run].pc;
            && heard <= ms && Windows.Walk(None, heard).Some?
            && (heard != [] ==> FlowUp(t) == Windows.Walk(None, heard).value.Some? == (|heard| % 2 == 1))
            && (HasCompleted(pc) ==> heard == ms && !FlowUp(t))
  {
    hide Planned, Whole, Written, Run, Writes, Windows.Accepted, Windows.NoStray, Windows.Pairs;
    var t := Run(rec, Rendered(rec), es);
    var w := t.run;
    RunsFollowTheScript(rec, es, w);
    RenderedIsInOrder(rec);
    RunHeard(rec, Rendered(rec), es);
    var s := t.sessions[w];
    var wrote, whole, ms := Written(t.log, w), Whole(rec, s.captured), Windows.Markers(steps);
    WholeAnnouncesTheMarkers(rec, s.captured, steps, frames, cuts);
    var heard := Announced(wrote);
    AnnouncedAppend(wrote, whole[|wrote|..]);
    assert whole == wrote + whole[|wrote|..];
    assert heard == ms[..|heard|];
    Windows.AcceptedArePairs(ms);
    if heard != [] {
      Windows.FlagMatchesTheWindow(ms, |heard|, false);
      Windows.FlagFollowsPairs(ms, |heard|, false);
      SameLast(Announced(Writes(t.log)), heard);
    }
    assert wrote == whole ==> heard == ms;
    Windows.AcceptedIsSome(ms);
  }

  lemma {:induction false} SameLast(all: seq<Marker>, tail: seq<Marker>)
    requires EndsWith(all, tail) && tail != []
    ensures Windows.UpFlag(false, all) == Windows.UpFlag(false, tail)
  {
    assert all[|all| - |tail|..][|tail| - 1] == all[|all| - 1];
  }

  // ---------------------------------------------------------------------
  // What the reader sees
  // ---------------------------------------------------------------------

  /** One frame shows, or the body is blank on purpose and none does. */
  ghost predicate OneShown(s: Screen)
  {
    || |s.active| == 0
    || (s.blank && forall k | 0 <= k < |s.active| :: !s.active[k])
    || (!s.blank && exists f: nat | f < |s.active| :: s.active == Only(|s.active|, f))
  }

  /** The finished session: the last frame, nothing laid over it, and the whole command. */
  ghost predicate AtRest(rec: Recording, s: Screen)
  {
    && s.typed == [] && s.spun == [] && s.caret == None && s.command == rec.command
    && |s.active| == rec.frames
    && (rec.frames > 0 ==> !s.blank && s.active == Only(rec.frames, rec.frames - 1))
  }

  lemma {:induction false} ShowingShowsOne(s: Screen, index: int)
    ensures OneShown(Shows(s, index)) && |Shows(s, index).active| == |s.active|
  {
    var n := |s.active|;
    if n > 0 && index >= 0 {
      var f := if index < n then index else n - 1;
      assert Shows(s, index).active == Only(n, f);
    }
  }

  lemma {:induction false} WritesShowOne(s: Screen, ws: seq<Write>)
    ensures |ApplyAll(s, ws).active| == |s.active|
    ensures OneShown(s) || (exists k | 0 <= k < |ws| :: ws[k].ShowFrame?) ==> OneShown(ApplyAll(s, ws))
  {
    hide OneShown, Shows;
    if ws != [] {
      var before, last := ws[..|ws| - 1], ws[|ws| - 1];
      WritesShowOne(s, before);
      var t := ApplyAll(s, before);
      if last.ShowFrame? {
        ShowingShowsOne(t, last.index);
      } else {
        assert Apply(t, last).active == t.active && Apply(t, last).blank == t.blank;
        SameFrames(t, Apply(t, last));
        assert (exists k | 0 <= k < |ws| :: ws[k].ShowFrame?) ==> exists k | 0 <= k < |before| :: before[k].ShowFrame?;
      }
    }
  }

  lemma {:induction false} SameFrames(s: Screen, t: Screen)
    requires s.active == t.active && s.blank == t.blank
    ensures OneShown(s) == OneShown(t)
  {
  }

  /** Nothing but a `Command` write changes the prompt row. */
  lemma {:induction false} CommandKept(s: Screen, ws: seq<Write>)
    requires forall k | 0 <= k < |ws| :: !ws[k].Command?
    ensures ApplyAll(s, ws).command == s.command
  {
    if ws != [] {
      CommandKept(s, ws[..|ws| - 1]);
    }
  }

  lemma {:induction false} ApplyMore(s: Screen, ws: seq<Write>, w: Write)
    ensures ApplyAll(s, ws + [w]) == Apply(ApplyAll(s, ws), w)
  {
    assert (ws + [w])[..|ws|] == ws;
  }

  lemma {:induction false} ApplyTwo(s: Screen, a: Write, b: Write)
    ensures ApplyAll(s, [a, b]) == Apply(Apply(s, a), b)
  {
    assert [a, b] == [a] + [b] && [a] == [] + [a];
    ApplyMore(s, [a], b);
    ApplyMore(s, [], a);
  }

  /** What the screen owes the current run, the one writer it has. */
  ghost predicate ScreenOk(rec: Recording, t: Terminal)
  {
    && |t.screen.active| == rec.frames
    && (t.connected ==> OneShown(t.screen))
    && (!t.captured ==> t.screen.command == rec.command)
    && (t.run in t.sessions ==>
          var pc := t.sessions[t.run].pc;
          && (pc.Typing? && 0 < pc.i <= |rec.command| ==> t.screen.command == rec.command[..pc.i - 1])
          && (Parked(pc) && !pc.Typing? ==> t.screen.command == rec.command)
          && (HasCompleted(pc) ==> AtRest(rec, t.screen)))
  }

  lemma {:induction false} RestoredShows(rec: Recording, s: Screen, captured: bool)
    requires |s.active| == rec.frames && (!captured ==> s.command == rec.command)
    ensures var restored := if captured then [Command(rec.command)] else [];
            var ws := [Reset, ClearKeys] + restored + [ShowFrame(rec.frames - 1)];
            AtRest(rec, ApplyAll(s, ws)) && ApplyAll(s, ws).caps == []
  {
    var reset := ApplyAll(s, [Reset, ClearKeys]);
    ApplyTwo(s, Reset, ClearKeys);
    if captured {
      ApplyMore(s, [Reset, ClearKeys], Command(rec.command));
      ApplyMore(s, [Reset, ClearKeys] + [Command(rec.command)], ShowFrame(rec.frames - 1));
    } else {
      assert [Reset, ClearKeys] + [] == [Reset, ClearKeys];
      ApplyMore(s, [Reset, ClearKeys], ShowFrame(rec.frames - 1));
    }
  }

  /** What a current run's segment does to the screen. */
  lemma {:induction false} SegmentShows(rec: Recording, captured: bool, pc: Pc, s: Screen)
    requires OnScript(rec, captured, pc) && Parked(pc) && |s.active| == rec.frames
    requires s.command == if pc.Typing? then rec.command[..pc.i - 1] else rec.command
    ensures var (ws, next) := Segment(rec, pc, true);
            var u := ApplyAll(s, ws);
            && (next.Typing? ==> 0 < next.i <= |rec.command| && u.command == rec.command[..next.i - 1])
            && (Parked(next) && !next.Typing? ==> u.command == rec.command)
            && (next == Finishing(Completed) ==> AtRest(rec, u))
  {
    var (ws, next) := Segment(rec, pc, true);
    if pc.Typing? {
      ApplyTwo(s, ws[0], ws[1]);
      assert ws == [ws[0], ws[1]] && rec.command[..|rec.command|] == rec.command;
    } else {
      SegmentKeepsCommand(rec, pc);
      CommandKept(s, ws);
      if pc.Between? && pc.n == |rec.script.value| {
        ApplyTwo(s, Reset, ShowFrame(rec.frames - 1));
      }
    }
  }

  lemma {:induction false} SegmentKeepsCommand(rec: Recording, pc: Pc)
    requires Parked(pc) && !pc.Typing?
    ensures var (ws, next) := Segment(rec, pc, true);
            && (forall k | 0 <= k < |ws| :: !ws[k].Command?)
            && !next.Typing? && (next.Finishing? ==> next.how == Completed) && !next.Over?
            && (next.Finishing? ==> pc.Between? && ws == [Reset, ShowFrame(rec.frames - 1)])
  {
    hide Ticks, GlyphAt, KeyGlyph;
  }

  lemma {:induction false} ApplyAppend(s: Screen, a: seq<Write>, b: seq<Write>)
    ensures ApplyAll(s, a + b) == ApplyAll(ApplyAll(s, a), b)
    decreases |b|
  {
    if b == [] {
      assert a + b == a;
    } else {
      var init, last := b[..|b| - 1], b[|b| - 1];
      ApplyAppend(s, a, init);
      assert a + b == (a + init) + [last] && b == init + [last];
      ApplyMore(s, a + init, last);
    }
  }

  lemma {:induction false} OpeningShows(rec: Recording, captured: bool, s: Screen)
    requires |s.active| == rec.frames && (captured ==> rec.prompt) && (!captured ==> s.command == rec.command)
    ensures var (ws, next) := Opening(rec, captured);
            var u := ApplyAll(s, ws);
            && (!captured ==> forall k | 0 <= k < |ws| :: !ws[k].Command?)
            && (next.Typing? ==> 0 < next.i <= |rec.command| && u.command == rec.command[..next.i - 1])
            && (Parked(next) && !next.Typing? ==> u.command == rec.command)
            && (next == Finishing(Completed) ==> AtRest(rec, u))
  {
    hide Segment, AtRest;
    if rec.hasBody && rec.script.Some? {
      var cleared := ApplyAll(s, [Reset, ClearKeys]);
      ApplyTwo(s, Reset, ClearKeys);
      if !rec.prompt {
        var writes := Segment(rec, Between(0), true).0;
        ApplyAppend(s, [Reset, ClearKeys], writes);
        SegmentShows(rec, captured, Between(0), cleared);
        SegmentKeepsCommand(rec, Between(0));
      } else if captured {
        ApplyMore(s, [Reset, ClearKeys], ShowFrame(-1));
        ApplyMore(s, [Reset, ClearKeys, ShowFrame(-1)], Command(""));
        ApplyMore(s, [Reset, ClearKeys, ShowFrame(-1), Command("")], PlaceCaret(Place(0, rec.sigil)));
        assert [Reset, ClearKeys, ShowFrame(-1)] == [Reset, ClearKeys] + [ShowFrame(-1)];
        assert [Reset, ClearKeys, ShowFrame(-1), Command("")] == [Reset, ClearKeys, ShowFrame(-1)] + [Command("")];
        assert Opening(rec, captured).0
            == [Reset, ClearKeys, ShowFrame(-1), Command("")] + [PlaceCaret(Place(0, rec.sigil))];
      }
    }
  }

  lemma {:induction false} StartShows(rec: Recording, t: Terminal, cut: Option<nat>)
    requires Inv(rec, t) && ScreenOk(rec, t)
    ensures ScreenOk(rec, OnStart(rec, t, cut))
  {
    hide Opening, AtRest, OneShown, Inv;
    assert t.captured ==> rec.prompt by { CapturedPrompt(rec, t); }
    OpeningShows(rec, t.captured, t.screen);
    var opening := Opening(rec, t.captured);
    var (ws, pc) := Cut(opening, cut);
    OpeningIsNotOver(rec, t.captured);
    WritesShowOne(t.screen, ws);
    if !t.captured {
      CommandKept(t.screen, ws);
    }
  }

  lemma {:induction false} CapturedPrompt(rec: Recording, t: Terminal)
    requires Inv(rec, t)
    ensures t.captured ==> rec.prompt
  {
  }

  lemma {:induction false} WakeShows(rec: Recording, t: Terminal, w: nat, cut: Option<nat>)
    requires Inv(rec, t) && ScreenOk(rec, t) && w in t.sessions && Parked(t.sessions[w].pc)
    ensures ScreenOk(rec, OnWake(rec, t, w, cut))
  {
    hide Segment, AtRest, OneShown, Whole, Done, Written;
    assert SessionOk(rec, t, w);
    if t.run == w {
      var s := t.sessions[w];
      var segment := Segment(rec, s.pc, true);
      var (ws, pc) := Cut(segment, cut);
      SegmentShows(rec, s.captured, s.pc, t.screen);
      SegmentIsNotOver(rec, s.pc, true);
      WritesShowOne(t.screen, ws);
      if !t.captured {
        SegmentKeepsCommand(rec, s.pc);
        CommandKept(t.screen, ws);
      }
    } else {
      SupersededRunsLeave(rec, t.sessions[w].pc);
      EmitNothing(t, Some(w));
    }
  }

  lemma {:induction false} StopShows(rec: Recording, t: Terminal)
    requires Inv(rec, t) && ScreenOk(rec, t)
    ensures ScreenOk(rec, OnStop(rec, t))
    ensures AtRest(rec, OnStop(rec, t).screen) && OnStop(rec, t).screen.caps == []
  {
    NobodyHolds(rec, t);
    hide OneShown, AtRest, Inv, ApplyAll;
    RestoredShows(rec, t.screen, t.captured);
    var ws := [Reset, ClearKeys] + Restored(rec, t) + [ShowFrame(rec.frames - 1)];
    assert ws[|ws| - 1].ShowFrame?;
    WritesShowOne(t.screen, ws);
    RestIsWhole(rec, ApplyAll(t.screen, ws));
  }

  lemma {:induction false} RestIsWhole(rec: Recording, s: Screen)
    ensures AtRest(rec, s) ==> |s.active| == rec.frames && s.command == rec.command
  {
  }

  lemma {:induction false} StepShows(rec: Recording, t: Terminal, e: Event)
    requires Inv(rec, t) && ScreenOk(rec, t)
    ensures ScreenOk(rec, Step(rec, t, e))
    ensures Enabled(t, e) && e.Stop? ==> AtRest(rec, Step(rec, t, e).screen) && Step(rec, t, e).screen.caps == []
  {
    hide Segment, Opening, OneShown, OnStart, LogOk, SessionOk;
    NobodyHolds(rec, t);
    if Enabled(t, e) {
      var closing := [ShowFrame(rec.frames - 1)];
      match e {
        case Connect =>
          WritesShowOne(t.screen, closing);
          assert closing == [] + closing && closing[0].ShowFrame?;
          ApplyMore(t.screen, [], ShowFrame(rec.frames - 1));
        case Disconnect =>
          WritesShowOne(t.screen, Restored(rec, t));
          assert !t.captured ==> Restored(rec, t) == [];
        case Stop =>
          StopShows(rec, t);
        case Start(cut) => StartShows(rec, t, cut);
        case Wake(w, cut) =>
          if Parked(t.sessions[w].pc) {
            WakeShows(rec, t, w, cut);
          }
      }
    }
  }

  lemma {:induction false} RunShows(rec: Recording, t: Terminal, es: seq<Event>)
    requires Inv(rec, t) && ScreenOk(rec, t)
    ensures ScreenOk(rec, Run(rec, t, es))
    decreases |es|
  {
    hide Inv, ScreenOk, Step;
    if es != [] {
      StepKeeps(rec, t, es[0]);
      StepShows(rec, t, es[0]);
      RunShows(rec, Step(rec, t, es[0]), es[1..]);
    }
  }

  /** A session that plays to its end and one that is called off leave the reader the same
      thing: the last frame, nothing over it, and the whole command. While the element is on
      the page exactly one frame shows, or none does and the body says so. */
  lemma {:induction false} SessionsLeaveTheFinishedScreen(rec: Recording, es: seq<Event>)
    ensures var t := Run(rec, Rendered(rec), es);
            && (t.connected ==> OneShown(t.screen))
            && AtRest(rec, Step(rec, t, Stop).screen)
            && (t.run in t.sessions && HasCompleted(t.sessions[t.run].pc) ==> AtRest(rec, t.screen))
  {
    hide AtRest, OneShown;
    RenderedIsInOrder(rec);
    RunKeeps(rec, Rendered(rec), es);
    RunShows(rec, Rendered(rec), es);
    StepShows(rec, Run(rec, Rendered(rec), es), Stop);
  }

  // ---------------------------------------------------------------------
  // Seen from the flow
  // ---------------------------------------------------------------------

  /** The runs that have not finished. */
  function Live(sessions: map<nat, Session>): set<nat>
  {
    set w | w in sessions && !sessions[w].pc.Over?
  }

  lemma {:induction false} LiveUpdate(sessions: map<nat, Session>, w: nat, s: Session)
    ensures Live(sessions[w := s]) == if s.pc.Over? then Live(sessions) - {w} else Live(sessions) + {w}
  {
  }

  /** The terminal as the turn-taking protocol knows it. */
  function Seen(flow: Turns.Flow, t: Terminal): Turns.Flow
  {
    flow.(connected := t.connected, upgraded := true, run := t.run, live := Live(t.sessions))
  }

  /** What the turn-taking protocol takes the terminal to do on each event. */
  ghost predicate AsTheFlowExpects(t: Terminal, u: Terminal, e: Event, before: Turns.Flow, after: Turns.Flow)
    requires Enabled(t, e)
  {
    match e
    case Start(_) => after == before.(run := before.run + 1, live := before.live + {before.run + 1})
    case Stop => after == before.Stopped()
    case Connect => after == before.(connected := true)
    case Disconnect => after == before.(connected := false, run := before.run + 1)
    case Wake(w, _) =>
      if t.sessions[w].pc.Finishing? then
        && w in before.live && after == before.(live := before.live - {w})
        && u.ends == if w == before.run && before.connected then t.ends + [w] else t.ends
      else after == before && u.ends == t.ends
  }

  /** The player does to its run token, and to the runs that have not finished, just what the
      turn-taking protocol takes a terminal to do; and it announces an end just when that
      protocol's `RunEnds` acts on one. */
  lemma {:induction false} PlayerIsTheFlowsTerminal(rec: Recording, t: Terminal, e: Event, flow: Turns.Flow)
    requires Inv(rec, t) && Enabled(t, e)
    ensures AsTheFlowExpects(t, Step(rec, t, e), e, Seen(flow, t), Seen(flow, Step(rec, t, e)))
  {
    hide Inv, Opening, Segment, ApplyAll, Stamped, Live;
    if e.Start? {
      var pc := Cut(Opening(rec, t.captured), e.cut).1;
      OpeningIsNotOver(rec, t.captured);
      LiveUpdate(t.sessions, t.run + 1, Session(pc, t.captured));
    } else if e.Wake? {
      WakeIsExpected(rec, t, e.w, e.cut, flow);
    }
  }

  /** A wake on the script changes nothing a flow sees. */
  lemma {:induction false} WakeParks(rec: Recording, t: Terminal, w: nat, cut: Option<nat>)
    requires w in t.sessions && Parked(t.sessions[w].pc)
    ensures var u := OnWake(rec, t, w, cut);
            && u.run == t.run && u.connected == t.connected && u.ends == t.ends
            && Live(u.sessions) == Live(t.sessions)
  {
    hide Segment, ApplyAll, Stamped;
    var s := t.sessions[w];
    var segment := Segment(rec, s.pc, t.run == w);
    SegmentIsNotOver(rec, s.pc, t.run == w);
    var next := s.(pc := Cut(segment, cut).1);
    LiveUpdate(t.sessions, w, next);
    assert Live(t.sessions) + {w} == Live(t.sessions);
    assert OnWake(rec, t, w, cut).sessions == t.sessions[w := next];
  }

  lemma {:induction false} WakeIsExpected(rec: Recording, t: Terminal, w: nat, cut: Option<nat>, flow: Turns.Flow)
    requires Enabled(t, Wake(w, cut))
    ensures AsTheFlowExpects(t, OnWake(rec, t, w, cut), Wake(w, cut), Seen(flow, t), Seen(flow, OnWake(rec, t, w, cut)))
  {
    var s := t.sessions[w];
    if Parked(s.pc) {
      WakeParks(rec, t, w, cut);
      hide OnWake, Live;
    } else {
      var u := OnFinish(t, w);
      LiveUpdate(t.sessions, w, u.sessions[w]);
      assert u.sessions == t.sessions[w := u.sessions[w]];
    }
  }
}
