/** Compacting a recording: `planSteps` of docs-site/term-markup.ts. */
module TermPlan {
  import opened Common
  import opened Throbber

  // ---------------------------------------------------------------------
  // Recordings and scripts
  // ---------------------------------------------------------------------

  /** One styled run of characters. */
  datatype TextRun = TextRun(t: seq<char>, f: Option<string>, b: Option<string>, s: Option<nat>)

  type Line = seq<TextRun>

  datatype Frame = Frame(lines: seq<Line>, hold: Option<nat>)

  datatype Marker = Marker(show: bool, id: string)

  datatype Step =
    | Photograph(frame: Frame)
    | Type(text: string, row: nat, col: nat)
    | Paste(text: string, row: nat, col: nat)
    | Key(key: string)
    | Gui(marker: Marker)

  /** What the player is handed: frames by index, a spinner run as one entry. */
  datatype Entry =
    | Show(i: nat, hold: Option<nat>)
    | Spin(i: nat, row: nat, col: nat, glyphs: seq<char>, beats: nat, hold: Option<nat>)
    | Play(step: Step)

  /** Everything about a run except its text. */
  datatype Style = Style(f: string, b: string, s: nat)

  datatype Cell = Cell(ch: char, style: Style)

  function StyleKey(run: TextRun): Style
  {
    Style(if run.f.Some? then run.f.value else "", if run.b.Some? then run.b.value else "",
          if run.s.Some? then run.s.value else 0)
  }

  // ---------------------------------------------------------------------
  // Cells
  // ---------------------------------------------------------------------

  /** The cells one run paints. */
  function RunCells(run: TextRun): (r: seq<Cell>)
    ensures |r| == |run.t|
  {
    seq(|run.t|, k requires 0 <= k < |run.t| => Cell(run.t[k], StyleKey(run)))
  }

  /** The grid a line paints. */
  function Cells(line: Line): seq<Cell>
  {
    if line == [] then [] else RunCells(line[0]) + Cells(line[1..])
  }

  /** How many writes painted a line does not show: splitting a run changes no cell. */
  lemma {:induction false} SplittingARunShowsNothing(before: Line, run: TextRun, k: nat, after: Line)
    requires k <= |run.t|
    ensures Cells(before + [run] + after) ==
            Cells(before + [run.(t := run.t[..k]), run.(t := run.t[k..])] + after)
  {
    var left, right := run.(t := run.t[..k]), run.(t := run.t[k..]);
    CellsAppend(before + [run], after);
    CellsAppend(before, [run]);
    CellsAppend(before + [left, right], after);
    CellsAppend(before, [left, right]);
    assert [left, right] == [left] + [right];
    CellsAppend([left], [right]);
    CellsOne(left);
    CellsOne(right);
    CellsOne(run);
    SplitRun(run, k);
  }

  lemma {:induction false} SplitRun(run: TextRun, k: nat)
    requires k <= |run.t|
    ensures RunCells(run) == RunCells(run.(t := run.t[..k])) + RunCells(run.(t := run.t[k..]))
  {
    var left, right := run.(t := run.t[..k]), run.(t := run.t[k..]);
    forall j | 0 <= j < |run.t|
      ensures RunCells(run)[j] == (RunCells(left) + RunCells(right))[j]
    {
      assert StyleKey(left) == StyleKey(run) == StyleKey(right);
    }
  }

  lemma {:induction false} CellsOne(run: TextRun)
    ensures Cells([run]) == RunCells(run)
  {
    assert Cells([run]) == RunCells(run) + Cells([]);
  }

  lemma {:induction false} CellsAppend(a: Line, b: Line)
    ensures Cells(a + b) == Cells(a) + Cells(b)
  {
    if a == [] {
      assert a + b == b;
    } else {
      assert (a + b)[1..] == a[1..] + b;
      CellsAppend(a[1..], b);
    }
  }

  method LineCells(line: Line) returns (cells: seq<Cell>)
    ensures cells == Cells(line)
  {
    cells := [];
    for k := 0 to |line|
      invariant cells == Cells(line[..k])
    {
      var run := line[k];
      var style := StyleKey(run);
      ghost var before := cells;
      for j := 0 to |run.t|
        invariant cells == before + RunCells(run)[..j]
      {
        assert RunCells(run)[..j + 1] == RunCells(run)[..j] + [Cell(run.t[j], style)];
        cells := cells + [Cell(run.t[j], style)];
      }
      assert line[..k + 1] == line[..k] + [run];
      CellsAppend(line[..k], [run]);
      CellsOne(run);
    }
    assert line[..|line|] == line;
  }

  // ---------------------------------------------------------------------
  // A spinner advancing
  // ---------------------------------------------------------------------

  datatype Place = Place(row: nat, col: nat)

  predicate SameGrid(a: Frame, b: Frame)
  {
    |a.lines| == |b.lines| &&
    forall row | 0 <= row < |a.lines| :: |Cells(a.lines[row])| == |Cells(b.lines[row])|
  }

  predicate OnGrid(a: Frame, at: Place)
  {
    at.row < |a.lines| && at.col < |Cells(a.lines[at.row])|
  }

  function CellAt(a: Frame, at: Place): Cell
    requires OnGrid(a, at)
  {
    Cells(a.lines[at.row])[at.col]
  }

  /** The two frames paint the same grid of cells, and differ nowhere but at `at`. */
  ghost predicate SameBut(a: Frame, b: Frame, at: Place)
  {
    && SameGrid(a, b) && OnGrid(a, at)
    && forall row, col | 0 <= row < |a.lines| && 0 <= col < |Cells(a.lines[row])| && Place(row, col) != at ::
         Cells(a.lines[row])[col] == Cells(b.lines[row])[col]
  }

  /** `b` is `a` with its wait indicator, in the cell `at`, advanced. */
  ghost predicate Spun(a: Frame, b: Frame, at: Place)
  {
    && SameBut(a, b, at)
    && CellAt(a, at).style == CellAt(b, at).style
    && CellAt(a, at).ch != CellAt(b, at).ch
    && IsThrobberGlyph(CellAt(a, at).ch) && IsThrobberGlyph(CellAt(b, at).ch)
  }

  /** The rows above `row`, and the cells left of `col` in it, agree but for `found`. */
  ghost predicate AgreeUpTo(a: Frame, b: Frame, row: nat, col: nat, found: Option<Place>)
    requires |a.lines| == |b.lines|
  {
    && row <= |a.lines|
    && (forall r | 0 <= r < row :: |Cells(a.lines[r])| == |Cells(b.lines[r])|)
    && (row < |a.lines| && col > 0 ==> |Cells(a.lines[row])| == |Cells(b.lines[row])| && col <= |Cells(a.lines[row])|)
    && (forall r, c | 0 <= r <= row && r < |a.lines| && 0 <= c < |Cells(a.lines[r])| && (r < row || c < col)
                      && found != Some(Place(r, c)) ::
          Cells(a.lines[r])[c] == Cells(b.lines[r])[c])
    && (found.Some? ==>
          var at := found.value;
          && OnGrid(a, at) && OnGrid(b, at) && (at.row < row || (at.row == row && at.col < col))
          && CellAt(a, at).style == CellAt(b, at).style && CellAt(a, at).ch != CellAt(b, at).ch
          && IsThrobberGlyph(CellAt(a, at).ch) && IsThrobberGlyph(CellAt(b, at).ch))
  }

  /** Where two frames differ is the only place one can have spun on. */
  lemma {:induction false} OnlyThere(a: Frame, b: Frame, p: Place)
    requires OnGrid(a, p) && OnGrid(b, p) && CellAt(a, p) != CellAt(b, p)
    ensures forall q: Place | Spun(a, b, q) :: q == p
  {
    assert CellAt(a, p) == Cells(a.lines[p.row])[p.col] && p == Place(p.row, p.col);
  }

  lemma {:induction false} SpunInOnePlace(a: Frame, b: Frame, p: Place)
    requires Spun(a, b, p)
    ensures forall q: Place | Spun(a, b, q) :: q == p
  {
    OnlyThere(a, b, p);
  }

  lemma {:induction false} WholeGridCompared(a: Frame, b: Frame, found: Option<Place>)
    requires |a.lines| == |b.lines| && AgreeUpTo(a, b, |a.lines|, 0, found)
    ensures found.Some? ==> Spun(a, b, found.value)
    ensures found.None? ==> forall at: Place :: !Spun(a, b, at)
  {
  }

  /** The cell `b` spun on relative to `a`, found exactly when there is one. */
  method ThrobberDiff(a: Frame, b: Frame) returns (diff: Option<Place>)
    ensures diff.Some? ==> Spun(a, b, diff.value)
    ensures diff.None? ==> forall at: Place :: !Spun(a, b, at)
  {
    hide Cells, IsThrobberGlyph;
    if |a.lines| != |b.lines| {
      return None;
    }
    var found: Option<Place> := None;
    for row := 0 to |a.lines|
      invariant AgreeUpTo(a, b, row, 0, found)
    {
      var left := LineCells(a.lines[row]);
      var right := LineCells(b.lines[row]);
      if |left| != |right| {
        return None;
      }
      for col := 0 to |left|
        invariant AgreeUpTo(a, b, row, col, found)
      {
        if left[col] == right[col] {
          continue;
        }
        var here := Place(row, col);
        assert CellAt(a, here) != CellAt(b, here);
        OnlyThere(a, b, here);
        if found.Some? {
          OnlyThere(a, b, found.value);
          return None;
        }
        if left[col].style != right[col].style {
          return None;
        }
        if !IsThrobberGlyph(left[col].ch) || !IsThrobberGlyph(right[col].ch) {
          return None;
        }
        found := Some(here);
      }
    }
    WholeGridCompared(a, b, found);
    return found;
  }

  // ---------------------------------------------------------------------
  // The plan
  // ---------------------------------------------------------------------

  predicate FrameAt(steps: seq<Step>, k: int)
  {
    0 <= k < |steps| && steps[k].Photograph?
  }

  function Pic(steps: seq<Step>, k: int): Frame
    requires FrameAt(steps, k)
  {
    steps[k].frame
  }

  /** Steps `lo..hi` are frames, each the last with its indicator advanced at `at`. */
  ghost predicate Spinning(steps: seq<Step>, lo: nat, hi: nat, at: Place)
  {
    && lo < hi <= |steps|
    && (forall k | lo <= k < hi :: FrameAt(steps, k))
    && forall k | lo <= k < hi - 1 :: Spun(Pic(steps, k), Pic(steps, k + 1), at)
  }

  /** The spinner run of `lo..hi` goes no further. */
  ghost predicate StopsAt(steps: seq<Step>, lo: nat, hi: nat)
    requires lo < hi <= |steps| && FrameAt(steps, hi - 1)
  {
    FrameAt(steps, hi) ==>
      forall at: Place :: Spinning(steps, lo, hi, at) ==> !Spun(Pic(steps, hi - 1), Pic(steps, hi), at)
  }

  function HoldOf(step: Step): nat
  {
    if step.Photograph? && step.frame.hold.Some? then step.frame.hold.value else 0
  }

  /** The extra dwell of steps `lo..hi`. */
  function Held(steps: seq<Step>, lo: nat, hi: nat): nat
    requires lo <= hi <= |steps|
    decreases hi
  {
    if lo == hi then 0 else Held(steps, lo, hi - 1) + HoldOf(steps[hi - 1])
  }

  /** The entry steps `lo..hi` become, the frame shown being the `index`-th kept. */
  ghost predicate BlockIs(steps: seq<Step>, lo: nat, hi: nat, index: nat, entry: Entry)
  {
    && lo < hi <= |steps|
    && match entry
       case Play(step) => hi == lo + 1 && !step.Photograph? && steps[lo] == step
       case Show(i, hold) =>
         && hi == lo + 1 && i == index && FrameAt(steps, lo) && hold == Pic(steps, lo).hold
         && StopsAt(steps, lo, hi)
       case Spin(i, row, col, glyphs, beats, hold) =>
         && lo + 1 < hi && i == index && Spinning(steps, lo, hi, Place(row, col))
         && StopsAt(steps, lo, hi)
         && OnGrid(Pic(steps, lo), Place(row, col))
         && Some(glyphs) == ThrobberCycleFrom(CellAt(Pic(steps, lo), Place(row, col)).ch)
         && beats == hi - lo
         && hold == (if Held(steps, lo, hi) == 0 then None else Some(Held(steps, lo, hi)))
  }

  /** How many frames the first `n` entries show. */
  function Shown(script: seq<Entry>, n: nat): nat
    requires n <= |script|
  {
    if n == 0 then 0 else Shown(script, n - 1) + if script[n - 1].Play? then 0 else 1
  }

  /** Entry `k` is its block's, and the frame it shows is kept where it says. */
  ghost predicate EntryOk(steps: seq<Step>, frames: seq<Frame>, script: seq<Entry>, cuts: seq<nat>, k: nat)
    requires k < |script| && |cuts| == |script| + 1
  {
    && BlockIs(steps, cuts[k], cuts[k + 1], Shown(script, k), script[k])
    && (!script[k].Play? ==> Shown(script, k) < |frames| && frames[Shown(script, k)] == Pic(steps, cuts[k]))
  }

  /** The script and frames are the plan of the first `n` steps, entry `k` standing for steps
      `cuts[k]..cuts[k + 1]`. */
  ghost predicate Planned(steps: seq<Step>, n: nat, frames: seq<Frame>, script: seq<Entry>, cuts: seq<nat>)
  {
    && |cuts| == |script| + 1 && cuts[0] == 0 && cuts[|script|] == n <= |steps|
    && |frames| == Shown(script, |script|)
    && forall k | 0 <= k < |script| :: EntryOk(steps, frames, script, cuts, k)
  }

  lemma {:induction false} ShownOfPrefix(script: seq<Entry>, more: seq<Entry>, n: nat)
    requires n <= |script|
    ensures Shown(script + more, n) == Shown(script, n)
  {
    if n > 0 {
      ShownOfPrefix(script, more, n - 1);
    }
  }

  lemma {:induction false} ShownGrows(script: seq<Entry>, m: nat, n: nat)
    requires m <= n <= |script|
    ensures Shown(script, m) <= Shown(script, n)
    decreases n
  {
    if m < n {
      ShownGrows(script, m, n - 1);
    }
  }

  lemma {:induction false} NothingPlanned(steps: seq<Step>)
    ensures Planned(steps, 0, [], [], [0])
  {
  }

  lemma {:induction false} PlanOneMore(steps: seq<Step>, n: nat, frames: seq<Frame>, script: seq<Entry>, cuts: seq<nat>,
                                       hi: nat, entry: Entry)
    requires Planned(steps, n, frames, script, cuts)
    requires BlockIs(steps, n, hi, |frames|, entry)
    ensures Planned(steps, hi, if entry.Play? then frames else frames + [Pic(steps, n)], script + [entry], cuts + [hi])
  {
    hide EntryOk, BlockIs;
    var script2, cuts2 := script + [entry], cuts + [hi];
    BlockNeeds(steps, n, hi, |frames|, entry);
    var frames2 := if entry.Play? then frames else frames + [Pic(steps, n)];
    ShownOfPrefix(script, [entry], |script|);
    forall k | 0 <= k < |script2|
      ensures EntryOk(steps, frames2, script2, cuts2, k)
    {
      if k < |script| {
        EntryStays(steps, frames, script, cuts, k, frames2, entry, hi);
      } else {
        EntryNew(steps, n, frames, script, cuts, hi, entry);
      }
    }
  }

  lemma {:induction false} EntryStays(steps: seq<Step>, frames: seq<Frame>, script: seq<Entry>, cuts: seq<nat>, k: nat,
                                      frames2: seq<Frame>, entry: Entry, hi: nat)
    requires k < |script| && |cuts| == |script| + 1 && EntryOk(steps, frames, script, cuts, k) && frames <= frames2
    ensures EntryOk(steps, frames2, script + [entry], cuts + [hi], k)
  {
    hide BlockIs;
    ShownOfPrefix(script, [entry], k);
    BlockNeeds(steps, cuts[k], cuts[k + 1], Shown(script, k), script[k]);
  }

  lemma {:induction false} EntryNew(steps: seq<Step>, n: nat, frames: seq<Frame>, script: seq<Entry>, cuts: seq<nat>,
                                    hi: nat, entry: Entry)
    requires Planned(steps, n, frames, script, cuts) && BlockIs(steps, n, hi, |frames|, entry)
    ensures !entry.Play? ==> FrameAt(steps, n)
    ensures EntryOk(steps, if entry.Play? then frames else frames + [Pic(steps, n)], script + [entry], cuts + [hi],
                    |script|)
  {
    hide BlockIs;
    BlockNeeds(steps, n, hi, |frames|, entry);
    ShownOfPrefix(script, [entry], |script|);
  }

  lemma {:induction false} BlockOf(steps: seq<Step>, n: nat, frames: seq<Frame>, script: seq<Entry>, cuts: seq<nat>,
                                   k: nat)
    requires Planned(steps, n, frames, script, cuts) && k < |script|
    ensures |cuts| == |script| + 1
    ensures BlockIs(steps, cuts[k], cuts[k + 1], Shown(script, k), script[k])
    ensures !script[k].Play? ==> Shown(script, k) < |frames| && FrameAt(steps, cuts[k])
    ensures !script[k].Play? ==> frames[Shown(script, k)] == Pic(steps, cuts[k])
  {
    hide BlockIs;
    assert EntryOk(steps, frames, script, cuts, k);
    BlockNeeds(steps, cuts[k], cuts[k + 1], Shown(script, k), script[k]);
  }

  lemma {:induction false} BlockNeeds(steps: seq<Step>, lo: nat, hi: nat, index: nat, entry: Entry)
    requires BlockIs(steps, lo, hi, index, entry)
    ensures lo < hi <= |steps| && (FrameAt(steps, lo) <==> !entry.Play?)
  {
  }

  /** A wait indicator does not migrate. */
  lemma {:induction false} AnotherCellStops(steps: seq<Step>, i: nat, end: nat, cell: Place, at: Place)
    requires i < end && end + 1 < |steps| && Spinning(steps, i, end + 1, cell) && FrameAt(steps, end + 1)
    requires FrameAt(steps, end) && Spun(Pic(steps, end), Pic(steps, end + 1), at) && at != cell
    ensures StopsAt(steps, i, end + 1)
  {
    assert FrameAt(steps, end - 1) && FrameAt(steps, end);
    assert Spun(Pic(steps, end - 1), Pic(steps, end - 1 + 1), cell);
    SpunInOnePlace(Pic(steps, end - 1), Pic(steps, end), cell);
    SpunInOnePlace(Pic(steps, end), Pic(steps, end + 1), at);
  }

  /** How far the spinner runs from step `i`. */
  method SpinnerRun(steps: seq<Step>, i: nat) returns (end: nat, cell: Option<Place>)
    requires FrameAt(steps, i)
    ensures i <= end < |steps| && FrameAt(steps, end)
    ensures cell.None? <==> end == i
    ensures cell.Some? ==> Spinning(steps, i, end + 1, cell.value)
    ensures StopsAt(steps, i, end + 1)
  {
    hide Spun;
    end, cell := i, None;
    while end + 1 < |steps|
      invariant i <= end < |steps| && FrameAt(steps, end)
      invariant cell.None? <==> end == i
      invariant cell.Some? ==> Spinning(steps, i, end + 1, cell.value)
    {
      var next := steps[end + 1];
      if !next.Photograph? {
        return;
      }
      var diff := ThrobberDiff(steps[end].frame, next.frame);
      if diff.None? {
        return;
      }
      if cell.Some? && diff != cell {
        AnotherCellStops(steps, i, end, cell.value, diff.value);
        return;
      }
      cell := diff;
      end := end + 1;
    }
  }

  /** The entry for the spinner run of steps `i..end + 1`. */
  method SpinEntry(steps: seq<Step>, i: nat, end: nat, cell: Place, index: nat) returns (entry: Entry)
    requires i < end < |steps| && Spinning(steps, i, end + 1, cell) && StopsAt(steps, i, end + 1)
    ensures BlockIs(steps, i, end + 1, index, entry) && !entry.Play?
  {
    hide Cells;
    assert FrameAt(steps, i) && FrameAt(steps, i + 1) && Spun(Pic(steps, i), Pic(steps, i + 1), cell);
    var cells := LineCells(Pic(steps, i).lines[cell.row]);
    var glyphs := ThrobberCycleFrom(cells[cell.col].ch);
    CycleBeginsOnTheGlyph(cells[cell.col].ch);
    var hold := 0;
    for held := i to end + 1
      invariant hold == Held(steps, i, held)
    {
      hold := hold + HoldOf(steps[held]);
    }
    entry := Spin(index, cell.row, cell.col, glyphs.value, end - i + 1, if hold == 0 then None else Some(hold));
  }

  method PlanSteps(steps: seq<Step>) returns (frames: seq<Frame>, script: seq<Entry>)
    ensures exists cuts: seq<nat> :: Planned(steps, |steps|, frames, script, cuts)
  {
    hide Spun, ThrobberCycleFrom, Planned, Spinning, StopsAt, Held;
    NothingPlanned(steps);
    frames, script := [], [];
    ghost var cuts: seq<nat> := [0];
    var i := 0;
    while i < |steps|
      invariant i <= |steps| && Planned(steps, i, frames, script, cuts)
    {
      var step := steps[i];
      if !step.Photograph? {
        PlanOneMore(steps, i, frames, script, cuts, i + 1, Play(step));
        script, cuts := script + [Play(step)], cuts + [i + 1];
        i := i + 1;
        continue;
      }
      var end, cell := SpinnerRun(steps, i);
      var entry := Show(|frames|, step.frame.hold);
      if cell.Some? {
        entry := SpinEntry(steps, i, end, cell.value, |frames|);
      }
      PlanOneMore(steps, i, frames, script, cuts, end + 1, entry);
      frames, script, cuts := frames + [step.frame], script + [entry], cuts + [end + 1];
      i := end + 1;
    }
  }

  // ---------------------------------------------------------------------
  // What the plan keeps
  // ---------------------------------------------------------------------

  function FrameSteps(steps: seq<Step>, n: nat): nat
    requires n <= |steps|
  {
    if n == 0 then 0 else FrameSteps(steps, n - 1) + if steps[n - 1].Photograph? then 1 else 0
  }

  /** The steps that are not frames. */
  function Others(steps: seq<Step>, n: nat): seq<Step>
    requires n <= |steps|
  {
    if n == 0 then []
    else if steps[n - 1].Photograph? then Others(steps, n - 1) else Others(steps, n - 1) + [steps[n - 1]]
  }

  function Played(script: seq<Entry>, n: nat): seq<Step>
    requires n <= |script|
  {
    if n == 0 then []
    else if script[n - 1].Play? then Played(script, n - 1) + [script[n - 1].step] else Played(script, n - 1)
  }

  function BeatsOf(entry: Entry): nat
  {
    match entry
    case Play(_) => 0
    case Show(_, _) => 1
    case Spin(_, _, _, _, beats, _) => beats
  }

  function EntryHold(entry: Entry): nat
  {
    if entry.Play? || entry.hold.None? then 0 else entry.hold.value
  }

  function Beats(script: seq<Entry>, n: nat): nat
    requires n <= |script|
  {
    if n == 0 then 0 else Beats(script, n - 1) + BeatsOf(script[n - 1])
  }

  function Holds(script: seq<Entry>, n: nat): nat
    requires n <= |script|
  {
    if n == 0 then 0 else Holds(script, n - 1) + EntryHold(script[n - 1])
  }

  /** The frames the script shows, in the order it shows them. */
  function Indices(script: seq<Entry>, n: nat): seq<nat>
    requires n <= |script|
  {
    if n == 0 then []
    else if script[n - 1].Play? then Indices(script, n - 1) else Indices(script, n - 1) + [script[n - 1].i]
  }

  lemma {:induction false} HeldSplits(steps: seq<Step>, lo: nat, mid: nat, hi: nat)
    requires lo <= mid <= hi <= |steps|
    ensures Held(steps, lo, hi) == Held(steps, lo, mid) + Held(steps, mid, hi)
    decreases hi
  {
    if mid < hi {
      HeldSplits(steps, lo, mid, hi - 1);
    }
  }

  lemma {:induction false} AllFrames(steps: seq<Step>, lo: nat, hi: nat)
    requires lo <= hi <= |steps| && forall k | lo <= k < hi :: FrameAt(steps, k)
    ensures FrameSteps(steps, hi) == FrameSteps(steps, lo) + hi - lo && Others(steps, hi) == Others(steps, lo)
    decreases hi
  {
    if lo < hi {
      assert FrameAt(steps, hi - 1);
      AllFrames(steps, lo, hi - 1);
    }
  }

  /** One entry carries as many frames, as much hold, and the same other step as its block. */
  lemma {:induction false} BlockConserves(steps: seq<Step>, lo: nat, hi: nat, index: nat, entry: Entry)
    requires BlockIs(steps, lo, hi, index, entry)
    ensures lo < hi <= |steps|
    ensures FrameSteps(steps, hi) == FrameSteps(steps, lo) + BeatsOf(entry)
    ensures Held(steps, 0, hi) == Held(steps, 0, lo) + EntryHold(entry)
    ensures Others(steps, hi) == Others(steps, lo) + if entry.Play? then [entry.step] else []
    ensures !entry.Play? ==> entry.i == index
  {
    hide StopsAt, Spun, ThrobberCycleFrom;
    HeldSplits(steps, 0, lo, hi);
    if entry.Spin? {
      AllFrames(steps, lo, hi);
    } else {
      assert Held(steps, lo, lo) == 0;
    }
  }

  lemma {:induction false} PrefixConserves(steps: seq<Step>, n: nat, frames: seq<Frame>, script: seq<Entry>,
                                           cuts: seq<nat>, k: nat)
    requires Planned(steps, n, frames, script, cuts) && k <= |script|
    ensures cuts[k] <= n
    ensures Beats(script, k) == FrameSteps(steps, cuts[k])
    ensures Holds(script, k) == Held(steps, 0, cuts[k])
    ensures Played(script, k) == Others(steps, cuts[k])
    decreases k
  {
    hide BlockIs, Shown;
    CutsAscend(steps, n, frames, script, cuts, k);
    if k > 0 {
      PrefixConserves(steps, n, frames, script, cuts, k - 1);
      BlockOf(steps, n, frames, script, cuts, k - 1);
      BlockConserves(steps, cuts[k - 1], cuts[k - 1 + 1], Shown(script, k - 1), script[k - 1]);
    }
  }

  lemma {:induction false} FramesInOrder(steps: seq<Step>, n: nat, frames: seq<Frame>, script: seq<Entry>,
                                         cuts: seq<nat>, k: nat)
    requires Planned(steps, n, frames, script, cuts) && k <= |script|
    ensures |Indices(script, k)| == Shown(script, k)
    ensures forall m | 0 <= m < |Indices(script, k)| :: Indices(script, k)[m] == m
    decreases k
  {
    hide BlockIs;
    if k > 0 {
      FramesInOrder(steps, n, frames, script, cuts, k - 1);
      BlockOf(steps, n, frames, script, cuts, k - 1);
      BlockConserves(steps, cuts[k - 1], cuts[k - 1 + 1], Shown(script, k - 1), script[k - 1]);
    }
  }

  lemma {:induction false} CutsAscend(steps: seq<Step>, n: nat, frames: seq<Frame>, script: seq<Entry>,
                                      cuts: seq<nat>, k: nat)
    requires Planned(steps, n, frames, script, cuts) && k <= |script|
    ensures cuts[k] <= n && (k < |script| ==> cuts[k] < n)
    decreases |script| - k
  {
    hide BlockIs;
    if k < |script| {
      BlockOf(steps, n, frames, script, cuts, k);
      BlockNeeds(steps, cuts[k], cuts[k + 1], Shown(script, k), script[k]);
      CutsAscend(steps, n, frames, script, cuts, k + 1);
    }
  }

  /** The plan keeps every other step in order, shows frames 0, 1, 2, … each once, and conserves
      the number of frames (as beats) and the total hold. */
  lemma {:induction false} PlanConserves(steps: seq<Step>, frames: seq<Frame>, script: seq<Entry>, cuts: seq<nat>)
    requires Planned(steps, |steps|, frames, script, cuts)
    ensures Played(script, |script|) == Others(steps, |steps|)
    ensures |Indices(script, |script|)| == |frames|
    ensures forall m | 0 <= m < |frames| :: Indices(script, |script|)[m] == m
    ensures Beats(script, |script|) == FrameSteps(steps, |steps|)
    ensures Holds(script, |script|) == Held(steps, 0, |steps|)
  {
    PrefixConserves(steps, |steps|, frames, script, cuts, |script|);
    FramesInOrder(steps, |steps|, frames, script, cuts, |script|);
  }

  lemma {:induction false} SpinningKeepsTheRest(steps: seq<Step>, lo: nat, hi: nat, at: Place, j: nat)
    requires Spinning(steps, lo, hi, at) && lo + 1 < hi && lo <= j < hi
    ensures FrameAt(steps, lo) && FrameAt(steps, j)
    ensures SameBut(Pic(steps, lo), Pic(steps, j), at)
    ensures CellAt(Pic(steps, lo), at).style == CellAt(Pic(steps, j), at).style
    ensures IsThrobberGlyph(CellAt(Pic(steps, lo), at).ch) && IsThrobberGlyph(CellAt(Pic(steps, j), at).ch)
    decreases j
  {
    hide Cells, IsThrobberGlyph;
    assert FrameAt(steps, lo) && FrameAt(steps, lo + 1) && Spun(Pic(steps, lo), Pic(steps, lo + 1), at);
    if j > lo {
      SpinningKeepsTheRest(steps, lo, hi, at, j - 1);
      assert FrameAt(steps, j - 1) && FrameAt(steps, j) && Spun(Pic(steps, j - 1), Pic(steps, j - 1 + 1), at);
      SameButTransitive(Pic(steps, lo), Pic(steps, j - 1), Pic(steps, j), at);
    }
  }

  lemma {:induction false} SameButTransitive(a: Frame, b: Frame, c: Frame, at: Place)
    requires SameBut(a, b, at) && SameBut(b, c, at)
    ensures SameBut(a, c, at)
  {
    hide Cells;
    forall row, col | 0 <= row < |a.lines| && 0 <= col < |Cells(a.lines[row])| && Place(row, col) != at
      ensures |Cells(a.lines[row])| == |Cells(c.lines[row])| && Cells(a.lines[row])[col] == Cells(c.lines[row])[col]
    {
      assert Cells(a.lines[row])[col] == Cells(b.lines[row])[col];
    }
  }

  /** Every frame a spin stands for is the frame kept for it in all cells but one, and in that
      one both show a throbber glyph in one style. */
  lemma {:induction false} CollapsedFramesDifferInOneCell(steps: seq<Step>, frames: seq<Frame>, script: seq<Entry>,
                                                          cuts: seq<nat>, k: nat, j: nat)
    requires Planned(steps, |steps|, frames, script, cuts) && k < |script| && script[k].Spin?
    requires cuts[k] <= j < cuts[k + 1] <= |steps|
    ensures script[k].i < |frames| && FrameAt(steps, j)
    ensures var at := Place(script[k].row, script[k].col);
            var kept := frames[script[k].i];
            && SameBut(kept, Pic(steps, j), at)
            && CellAt(kept, at).style == CellAt(Pic(steps, j), at).style
            && IsThrobberGlyph(CellAt(kept, at).ch) && IsThrobberGlyph(CellAt(Pic(steps, j), at).ch)
            && Some(script[k].glyphs) == ThrobberCycleFrom(CellAt(kept, at).ch)
  {
    hide Cells, IsThrobberGlyph, ThrobberCycleFrom, SameBut;
    BlockOf(steps, |steps|, frames, script, cuts, k);
    SpinningKeepsTheRest(steps, cuts[k], cuts[k + 1], Place(script[k].row, script[k].col), j);
  }

  // ---------------------------------------------------------------------
  // What a reader sees of a cell
  // ---------------------------------------------------------------------

  /** A character as it is painted; an absent colour is the default one, absent styling none. */
  datatype Look = Look(ch: char, fore: string, back: string, style: nat)

  function Width(line: Line): nat
  {
    if line == [] then 0 else |line[0].t| + Width(line[1..])
  }

  /** How the character in column `col` is painted. */
  function LookAt(line: Line, col: nat): Look
    requires col < Width(line)
  {
    var run := line[0];
    if col < |run.t| then
      Look(run.t[col], match run.f case Some(f) => f case None => "", match run.b case Some(b) => b case None => "",
           match run.s case Some(s) => s case None => 0)
    else LookAt(line[1..], col - |run.t|)
  }

  lemma {:induction false} CellsAreLooks(line: Line, col: nat)
    ensures |Cells(line)| == Width(line)
    ensures col < Width(line) ==>
              var look := LookAt(line, col);
              Cells(line)[col] == Cell(look.ch, Style(look.fore, look.back, look.style))
  {
    if line != [] {
      var run, rest := line[0], line[1..];
      CellsAreLooks(rest, if col < |run.t| then 0 else col - |run.t|);
      assert Cells(line) == RunCells(run) + Cells(rest);
      if col < |run.t| {
        assert Cells(line)[col] == RunCells(run)[col] == Cell(run.t[col], StyleKey(run));
      } else if col < Width(line) {
        assert Cells(line)[col] == Cells(rest)[col - |run.t|];
      }
    }
  }

  /** Two cells are one cell exactly when they look the same. */
  lemma {:induction false} CellsTellLooksApart(a: Line, c: nat, b: Line, d: nat)
    requires c < Width(a) && d < Width(b)
    ensures c < |Cells(a)| && d < |Cells(b)|
    ensures Cells(a)[c] == Cells(b)[d] <==> LookAt(a, c) == LookAt(b, d)
    ensures Cells(a)[c].ch == LookAt(a, c).ch
    ensures Cells(a)[c].style == Cells(b)[d].style <==>
              LookAt(a, c).(ch := LookAt(b, d).ch) == LookAt(b, d)
  {
    CellsAreLooks(a, c);
    CellsAreLooks(b, d);
  }

  /** Runs of one text paint the same cells exactly when they are styled the same. */
  lemma {:induction false} RunsPaintAlikeExactlyWhen(a: TextRun, b: TextRun)
    requires a.t == b.t && a.t != []
    ensures Cells([a]) == Cells([b]) <==>
              && (match a.f case Some(f) => f case None => "") == (match b.f case Some(f) => f case None => "")
              && (match a.b case Some(c) => c case None => "") == (match b.b case Some(c) => c case None => "")
              && (match a.s case Some(n) => n case None => 0) == (match b.s case Some(n) => n case None => 0)
  {
    forall c | 0 <= c < |a.t|
      ensures Cells([a])[c] == Cells([b])[c] <==> LookAt([a], c) == LookAt([b], c)
    {
      assert Width([a]) == Width([b]) == |a.t|;
      CellsTellLooksApart([a], c, [b], c);
    }
    CellsAreLooks([a], 0);
    CellsAreLooks([b], 0);
    hide Cells;
    assert LookAt([a], 0).ch == LookAt([b], 0).ch;
  }

  predicate Seen(a: Frame, at: Place)
  {
    at.row < |a.lines| && at.col < Width(a.lines[at.row])
  }

  function LookOf(a: Frame, at: Place): Look
    requires Seen(a, at)
  {
    LookAt(a.lines[at.row], at.col)
  }

  /** The two frames are painted alike, but for one character at `at`: a throbber's, and then
      another of a throbber's. */
  ghost predicate SpunAsSeen(a: Frame, b: Frame, at: Place)
  {
    && |a.lines| == |b.lines| && (forall row | 0 <= row < |a.lines| :: Width(a.lines[row]) == Width(b.lines[row]))
    && Seen(a, at) && Seen(b, at)
    && (forall p: Place | p != at && Seen(a, p) :: Seen(b, p) && LookOf(a, p) == LookOf(b, p))
    && LookOf(a, at).(ch := LookOf(b, at).ch) == LookOf(b, at) && LookOf(a, at).ch != LookOf(b, at).ch
    && IsThrobberGlyph(LookOf(a, at).ch) && IsThrobberGlyph(LookOf(b, at).ch)
  }

  lemma {:induction false} WidthsAreCells(a: Frame, p: Place)
    ensures OnGrid(a, p) <==> Seen(a, p)
    ensures p.row < |a.lines| ==> |Cells(a.lines[p.row])| == Width(a.lines[p.row])
  {
    if p.row < |a.lines| {
      CellsAreLooks(a.lines[p.row], 0);
    }
  }

  lemma {:induction false} PlacesCompared(a: Frame, b: Frame, p: Place)
    ensures OnGrid(a, p) <==> Seen(a, p)
    ensures Seen(a, p) && Seen(b, p) ==>
              && OnGrid(b, p)
              && (CellAt(a, p) == CellAt(b, p) <==> LookOf(a, p) == LookOf(b, p))
              && (CellAt(a, p).style == CellAt(b, p).style <==> LookOf(a, p).(ch := LookOf(b, p).ch) == LookOf(b, p))
              && CellAt(a, p).ch == LookOf(a, p).ch && CellAt(b, p).ch == LookOf(b, p).ch
  {
    hide Cells, Width, LookAt;
    WidthsAreCells(a, p);
    WidthsAreCells(b, p);
    if Seen(a, p) && Seen(b, p) {
      CellsTellLooksApart(a.lines[p.row], p.col, b.lines[p.row], p.col);
      CellsTellLooksApart(b.lines[p.row], p.col, a.lines[p.row], p.col);
    }
  }

  lemma {:induction false} GridsCompared(a: Frame, b: Frame)
    ensures SameGrid(a, b) <==>
              |a.lines| == |b.lines| && forall row | 0 <= row < |a.lines| :: Width(a.lines[row]) == Width(b.lines[row])
  {
    hide Cells, Width;
    forall row: nat
      ensures row < |a.lines| ==> |Cells(a.lines[row])| == Width(a.lines[row])
      ensures row < |b.lines| ==> |Cells(b.lines[row])| == Width(b.lines[row])
    {
      WidthsAreCells(a, Place(row, 0));
      WidthsAreCells(b, Place(row, 0));
    }
  }

  /** Same grid, and the same cells but one, in terms of looks. */
  lemma {:induction false} SameButAsSeen(a: Frame, b: Frame, at: Place)
    requires SameGrid(a, b)
    ensures SameBut(a, b, at) <==>
              Seen(a, at) && forall p: Place | p != at && Seen(a, p) :: Seen(b, p) && LookOf(a, p) == LookOf(b, p)
  {
    hide Cells, Width, LookAt;
    forall p: Place
      ensures OnGrid(a, p) <==> Seen(a, p)
      ensures Seen(a, p) ==> Seen(b, p)
      ensures Seen(a, p) ==> OnGrid(b, p) && (CellAt(a, p) == CellAt(b, p) <==> LookOf(a, p) == LookOf(b, p))
    {
      PlacesCompared(a, b, p);
      PlacesCompared(b, a, p);
    }
    if forall p: Place | p != at && Seen(a, p) :: Seen(b, p) && LookOf(a, p) == LookOf(b, p) {
      forall row, col | 0 <= row < |a.lines| && 0 <= col < |Cells(a.lines[row])| && Place(row, col) != at
        ensures Cells(a.lines[row])[col] == Cells(b.lines[row])[col]
      {
        assert Seen(a, Place(row, col)) && CellAt(a, Place(row, col)) == CellAt(b, Place(row, col));
      }
    }
    if SameBut(a, b, at) {
      forall p: Place | p != at && Seen(a, p)
        ensures Seen(b, p) && LookOf(a, p) == LookOf(b, p)
      {
        assert Place(p.row, p.col) == p;
      }
    }
  }

  /** That is what the comparison of cells finds. */
  lemma {:induction false} SpunExactlyAsSeen(a: Frame, b: Frame, at: Place)
    ensures Spun(a, b, at) <==> SpunAsSeen(a, b, at)
  {
    GridsCompared(a, b);
    if SameGrid(a, b) {
      SameButAsSeen(a, b, at);
      PlacesCompared(a, b, at);
      PlacesCompared(b, a, at);
    }
    hide SameGrid, Cells, LookOf, CellAt, OnGrid, Seen, IsThrobberGlyph;
  }

  /** Whatever frames a block stands for are painted alike: colours and styling in every cell, and
      every character but the spinner's. So two photographs that differ in more are told apart. */
  lemma {:induction false} BlocksLookAlike(steps: seq<Step>, frames: seq<Frame>, script: seq<Entry>, cuts: seq<nat>,
                                           k: nat, i: nat, j: nat, p: Place)
    requires Planned(steps, |steps|, frames, script, cuts) && k < |script|
    requires cuts[k] <= i < cuts[k + 1] <= |steps| && cuts[k] <= j < cuts[k + 1]
    requires FrameAt(steps, i) && Seen(Pic(steps, i), p)
    ensures FrameAt(steps, j) && Seen(Pic(steps, j), p)
    ensures var x, y := LookOf(Pic(steps, i), p), LookOf(Pic(steps, j), p);
            && x.fore == y.fore && x.back == y.back && x.style == y.style
            && (x != y ==> script[k].Spin? && p == Place(script[k].row, script[k].col))
  {
    BlockOf(steps, |steps|, frames, script, cuts, k);
    hide Planned, Cells, Width, LookAt, IsThrobberGlyph, ThrobberCycleFrom, Spun, Held, StopsAt;
    if script[k].Spin? {
      var at := Place(script[k].row, script[k].col);
      SpinningKeepsTheRest(steps, cuts[k], cuts[k + 1], at, i);
      SpinningKeepsTheRest(steps, cuts[k], cuts[k + 1], at, j);
      SameButLooks(Pic(steps, cuts[k]), Pic(steps, i), at, p);
      SameButLooks(Pic(steps, cuts[k]), Pic(steps, j), at, p);
    } else {
      assert i == j;
    }
  }

  lemma {:induction false} SameButLooks(a: Frame, b: Frame, at: Place, p: Place)
    requires SameBut(a, b, at) && OnGrid(b, at) && CellAt(a, at).style == CellAt(b, at).style
    ensures Seen(a, p) <==> Seen(b, p)
    ensures Seen(a, p) ==>
              && LookOf(a, p).(ch := LookOf(b, p).ch) == LookOf(b, p)
              && (p != at ==> LookOf(a, p) == LookOf(b, p))
  {
    hide Cells, Width, LookAt;
    WidthsAreCells(a, p);
    WidthsAreCells(b, p);
    if p.row < |a.lines| {
      assert |Cells(a.lines[p.row])| == |Cells(b.lines[p.row])|;
    }
    if Seen(a, p) {
      CellsTellLooksApart(a.lines[p.row], p.col, b.lines[p.row], p.col);
    }
  }

  /** Steps `lo..hi` are frames with a cell at `at`. */
  ghost predicate ShowCell(steps: seq<Step>, lo: nat, hi: nat, at: Place)
  {
    lo <= hi && forall j: nat | lo <= j < hi :: FrameAt(steps, j) && OnGrid(Pic(steps, j), at)
  }

  /** The glyphs they show there. */
  ghost function GlyphsAt(steps: seq<Step>, lo: nat, hi: nat, at: Place): (gs: seq<char>)
    requires ShowCell(steps, lo, hi, at)
    ensures |gs| == hi - lo && forall k | 0 <= k < hi - lo :: gs[k] == CellAt(Pic(steps, lo + k), at).ch
  {
    seq(hi - lo, k requires 0 <= k < hi - lo => CellAt(Pic(steps, lo + k), at).ch)
  }

  /** The comment beside the code asks that the indicator advance within one cycle; the code only
      asks for two glyphs. What a spin plays holds every glyph it stands for if and only if each
      of its frames did advance within one cycle. */
  lemma {:induction false} EveryGlyphIsPlayedExactlyWhen(steps: seq<Step>, frames: seq<Frame>, script: seq<Entry>,
                                                         cuts: seq<nat>, k: nat)
    requires Planned(steps, |steps|, frames, script, cuts) && k < |script| && script[k].Spin?
    ensures |cuts| == |script| + 1 && ShowCell(steps, cuts[k], cuts[k + 1], Place(script[k].row, script[k].col))
    ensures var gs := GlyphsAt(steps, cuts[k], cuts[k + 1], Place(script[k].row, script[k].col));
            (forall j | 0 <= j < |gs| :: gs[j] in script[k].glyphs) <==>
            (forall j | 0 <= j < |gs| - 1 :: SameCycle(gs[j], gs[j + 1]))
  {
    hide Planned, BlockIs;
    BlockOf(steps, |steps|, frames, script, cuts, k);
    var lo, hi, at := cuts[k], cuts[k + 1], Place(script[k].row, script[k].col);
    SpinHasGlyphs(steps, lo, hi, Shown(script, k), script[k]);
    hide GlyphsAt, SameCycle, Cells, IsThrobberGlyph, ThrobberCycleFrom;
    SpinShowsGlyphs(steps, lo, hi, at);
    AllFromOneCycle(GlyphsAt(steps, lo, hi, at), script[k].glyphs);
  }

  lemma {:induction false} SpinHasGlyphs(steps: seq<Step>, lo: nat, hi: nat, index: nat, entry: Entry)
    requires BlockIs(steps, lo, hi, index, entry) && entry.Spin?
    ensures var at := Place(entry.row, entry.col);
            && lo + 1 < hi && Spinning(steps, lo, hi, at) && OnGrid(Pic(steps, lo), at)
            && Some(entry.glyphs) == ThrobberCycleFrom(CellAt(Pic(steps, lo), at).ch)
  {
    hide Spun, Cells, ThrobberCycleFrom, StopsAt, Held;
  }

  lemma {:induction false} SpinShowsGlyphs(steps: seq<Step>, lo: nat, hi: nat, at: Place)
    requires Spinning(steps, lo, hi, at) && lo + 1 < hi
    ensures ShowCell(steps, lo, hi, at)
    ensures forall k | 0 <= k < hi - lo :: IsThrobberGlyph(GlyphsAt(steps, lo, hi, at)[k])
  {
    hide Cells, IsThrobberGlyph, Spinning, OnGrid, CellAt, SameBut;
    forall j: nat | lo <= j < hi
      ensures FrameAt(steps, j) && OnGrid(Pic(steps, j), at) && IsThrobberGlyph(CellAt(Pic(steps, j), at).ch)
    {
      SpinningKeepsTheRest(steps, lo, hi, at, j);
      StaysOnGrid(Pic(steps, lo), Pic(steps, j), at);
    }
  }

  lemma {:induction false} StaysOnGrid(a: Frame, b: Frame, at: Place)
    requires SameBut(a, b, at)
    ensures OnGrid(a, at) && OnGrid(b, at)
  {
    hide Cells;
  }

  /** The two frames of a spin that leaves one cycle for another. */
  function OneGlyph(c: char): Frame
  {
    Frame([[TextRun([c], None, None, None)]], None)
  }

  lemma {:induction false} OneGlyphCells(c: char)
    ensures Cells(OneGlyph(c).lines[0]) == [Cell(c, Style("", "", 0))]
  {
    var run := TextRun([c], None, None, None);
    CellsOne(run);
    assert StyleKey(run) == Style("", "", 0);
    assert |RunCells(run)| == 1 && RunCells(run)[0] == Cell(c, StyleKey(run));
  }

  lemma {:induction false} CycleFromItsFirst()
    ensures ThrobberCycleFrom('⠋') == Some(BRAILLE_DOTS)
  {
    assert IndexOf(BRAILLE_DOTS, '⠋') == Some(0);
    assert BRAILLE_DOTS[0..] + BRAILLE_DOTS[..0] == BRAILLE_DOTS;
    assert CYCLES[0] == BRAILLE_DOTS;
  }

  lemma {:induction false} LeavesItsCycle()
    ensures Spun(OneGlyph('⠋'), OneGlyph('◐'), Place(0, 0)) && '◐' !in BRAILLE_DOTS
  {
    OneGlyphCells('⠋');
    OneGlyphCells('◐');
    hide Cells;
    assert '⠋' == BRAILLE_DOTS[0] && '⠋' in CYCLES[0] && '◐' == CIRCLE_QUADRANTS[0] && '◐' in CYCLES[2];
  }

  /** It can leave the cycle: a braille dot followed by a quadrant is taken for one spinner, and
      what is played for it never shows the quadrant. */
  lemma {:induction false} ASpinCanLeaveItsCycle()
    ensures var a, b := OneGlyph('⠋'), OneGlyph('◐');
            var steps := [Photograph(a), Photograph(b)];
            && Spun(a, b, Place(0, 0))
            && Planned(steps, 2, [a], [Spin(0, 0, 0, BRAILLE_DOTS, 2, None)], [0, 2])
            && '◐' !in BRAILLE_DOTS
  {
    var steps := [Photograph(OneGlyph('⠋')), Photograph(OneGlyph('◐'))];
    LeavesItsCycle();
    CycleFromItsFirst();
    OneGlyphCells('⠋');
    hide Spun, Cells, ThrobberCycleFrom;
    assert Held(steps, 0, 1) == 0;
    var script := [Spin(0, 0, 0, BRAILLE_DOTS, 2, None)];
    assert BlockIs(steps, 0, 2, 0, script[0]);
    assert Shown(script, 0) == 0 && Shown(script, 1) == 1;
    assert EntryOk(steps, [OneGlyph('⠋')], script, [0, 2], 0);
  }

  /** No block could have taken in the next step as well. */
  lemma {:induction false} RunsAreMaximal(steps: seq<Step>, frames: seq<Frame>, script: seq<Entry>, cuts: seq<nat>,
                                          k: nat, at: Place)
    requires Planned(steps, |steps|, frames, script, cuts) && k < |script|
    ensures !Spinning(steps, cuts[k], cuts[k + 1] + 1, at)
  {
    BlockOf(steps, |steps|, frames, script, cuts, k);
    hide Planned;
    if Spinning(steps, cuts[k], cuts[k + 1] + 1, at) {
      BlockStops(steps, cuts[k], cuts[k + 1], Shown(script, k), script[k], at);
    }
  }

  lemma {:induction false} BlockStops(steps: seq<Step>, lo: nat, hi: nat, index: nat, entry: Entry, at: Place)
    requires BlockIs(steps, lo, hi, index, entry)
    ensures !Spinning(steps, lo, hi + 1, at)
  {
    hide Spun, ThrobberCycleFrom, Held;
    if Spinning(steps, lo, hi + 1, at) {
      SpinningShorter(steps, lo, hi, hi + 1, at);
    }
  }

  lemma {:induction false} BlockGoesNoFurther(steps: seq<Step>, lo: nat, hi: nat, index: nat, entry: Entry, far: nat,
                                              more: Entry)
    requires BlockIs(steps, lo, hi, index, entry) && BlockIs(steps, lo, far, index, more)
    ensures far <= hi
  {
    hide Spun, Held, ThrobberCycleFrom;
    if hi < far {
      SpinningShorter(steps, lo, hi, far, Place(more.row, more.col));
    }
  }

  lemma {:induction false} SpinningShorter(steps: seq<Step>, lo: nat, hi: nat, far: nat, at: Place)
    requires lo < hi < far && Spinning(steps, lo, far, at)
    ensures Spinning(steps, lo, hi, at) && FrameAt(steps, hi - 1) && FrameAt(steps, hi)
    ensures Spun(Pic(steps, hi - 1), Pic(steps, hi), at)
  {
    hide Spun;
    assert FrameAt(steps, lo) && FrameAt(steps, hi - 1) && FrameAt(steps, hi);
    assert Spun(Pic(steps, hi - 1), Pic(steps, hi - 1 + 1), at);
  }

  lemma {:induction false} BlockIsUnique(steps: seq<Step>, lo: nat, hi: nat, index: nat, entry: Entry, far: nat,
                                         more: Entry)
    requires BlockIs(steps, lo, hi, index, entry) && BlockIs(steps, lo, far, index, more)
    ensures hi == far && entry == more
  {
    hide Cells, StopsAt, Held, ThrobberCycleFrom;
    BlockGoesNoFurther(steps, lo, hi, index, entry, far, more);
    BlockGoesNoFurther(steps, lo, far, index, more, hi, entry);
    if entry.Spin? {
      assert FrameAt(steps, lo) && FrameAt(steps, lo + 1);
      SpunInOnePlace(Pic(steps, lo), Pic(steps, lo + 1), Place(entry.row, entry.col));
      assert Spun(Pic(steps, lo), Pic(steps, lo + 1), Place(more.row, more.col));
    }
  }

  lemma {:induction false} ShownAgrees(s: seq<Entry>, t: seq<Entry>, k: nat)
    requires k <= |s|
    ensures k <= |t| && s[..k] == t[..k] ==> Shown(s, k) == Shown(t, k)
  {
    if k <= |t| && s[..k] == t[..k] {
      ShownOfPrefix(s[..k], s[k..], k);
      ShownOfPrefix(t[..k], t[k..], k);
      assert s == s[..k] + s[k..] && t == t[..k] + t[k..];
    }
  }

  lemma {:induction false} PlansAgreeUpTo(steps: seq<Step>, f: seq<Frame>, s: seq<Entry>, c: seq<nat>,
                                          g: seq<Frame>, t: seq<Entry>, d: seq<nat>, k: nat)
    requires Planned(steps, |steps|, f, s, c) && Planned(steps, |steps|, g, t, d) && k <= |s|
    ensures k <= |t| && s[..k] == t[..k] && c[k] == d[k] && Shown(s, k) == Shown(t, k)
    decreases k
  {
    hide BlockIs, Shown;
    ShownAgrees(s, t, k);
    if k > 0 {
      PlansAgreeUpTo(steps, f, s, c, g, t, d, k - 1);
      CutsAscend(steps, |steps|, f, s, c, k - 1);
      BlockOf(steps, |steps|, f, s, c, k - 1);
      BlockOf(steps, |steps|, g, t, d, k - 1);
      BlockIsUnique(steps, c[k - 1], c[k - 1 + 1], Shown(s, k - 1), s[k - 1], d[k - 1 + 1], t[k - 1]);
      assert s[..k] == s[..k - 1] + [s[k - 1]] && t[..k] == t[..k - 1] + [t[k - 1]];
    }
  }

  lemma {:induction false} SameScript(steps: seq<Step>, f: seq<Frame>, s: seq<Entry>, c: seq<nat>,
                                      g: seq<Frame>, t: seq<Entry>, d: seq<nat>)
    requires Planned(steps, |steps|, f, s, c) && Planned(steps, |steps|, g, t, d)
    ensures s == t && |f| == |g|
  {
    hide BlockIs, Shown;
    PlansAgreeUpTo(steps, f, s, c, g, t, d, |s|);
    PlansAgreeUpTo(steps, g, t, d, f, s, c, |t|);
    assert s == s[..|s|] && t == t[..|t|];
  }

  /** A recording has one plan. */
  lemma {:induction false} PlanIsUnique(steps: seq<Step>, f: seq<Frame>, s: seq<Entry>, c: seq<nat>,
                                        g: seq<Frame>, t: seq<Entry>, d: seq<nat>)
    requires Planned(steps, |steps|, f, s, c) && Planned(steps, |steps|, g, t, d)
    ensures f == g && s == t
  {
    hide Planned;
    SameScript(steps, f, s, c, g, t, d);
    forall m | 0 <= m < |f|
      ensures f[m] == g[m]
    {
      SameFrameKept(steps, f, s, c, g, t, d, m);
    }
  }

  lemma {:induction false} SameFrameKept(steps: seq<Step>, f: seq<Frame>, s: seq<Entry>, c: seq<nat>,
                                         g: seq<Frame>, t: seq<Entry>, d: seq<nat>, m: nat)
    requires Planned(steps, |steps|, f, s, c) && Planned(steps, |steps|, g, t, d) && s == t
    requires m < |f| == |g|
    ensures f[m] == g[m]
  {
    hide BlockIs;
    var k := KeptAt(s, |s|, m);
    BlockOf(steps, |steps|, f, s, c, k);
    BlockOf(steps, |steps|, g, t, d, k);
    PlansAgreeUpTo(steps, f, s, c, g, t, d, k);
  }

  lemma {:induction false} KeptAt(script: seq<Entry>, n: nat, m: nat) returns (k: nat)
    requires n <= |script| && m < Shown(script, n)
    ensures k < |script| && !script[k].Play? && Shown(script, k) == m
  {
    if m < Shown(script, n - 1) {
      k := KeptAt(script, n - 1, m);
    } else {
      k := n - 1;
    }
  }

  // ---------------------------------------------------------------------
  // How long it plays
  // ---------------------------------------------------------------------

  const FRAME_DWELL: nat := 620

  /** The ticks a spin turns for: its beat in throbber ticks, rounded half up. */
  function Ticks(beats: nat, hold: Option<nat>): nat
  {
    var beat := beats * FRAME_DWELL + if hold.Some? then hold.value else 0;
    var rounded := (beat + THROBBER_TICK_MS / 2) / THROBBER_TICK_MS;
    if rounded < 1 then 1 else rounded
  }

  function FrameMs(hold: Option<nat>): nat
  {
    FRAME_DWELL + if hold.Some? then hold.value else 0
  }

  /** How long the script's first `n` entries play; `other` is what the other steps take. */
  function ScriptMs(script: seq<Entry>, n: nat, other: Step -> int): int
    requires n <= |script|
  {
    if n == 0 then 0
    else ScriptMs(script, n - 1, other) +
         match script[n - 1]
         case Play(step) => other(step)
         case Show(_, hold) => FrameMs(hold)
         case Spin(_, _, _, _, beats, hold) => Ticks(beats, hold) * THROBBER_TICK_MS
  }

  /** How long the recording plays frame by frame. */
  function RecordedMs(steps: seq<Step>, n: nat, other: Step -> int): int
    requires n <= |steps|
  {
    if n == 0 then 0
    else RecordedMs(steps, n - 1, other) +
         if steps[n - 1].Photograph? then FrameMs(steps[n - 1].frame.hold) else other(steps[n - 1])
  }

  function Spins(script: seq<Entry>, n: nat): nat
    requires n <= |script|
  {
    if n == 0 then 0 else Spins(script, n - 1) + if script[n - 1].Spin? then 1 else 0
  }

  /** A spin lasts its frames' summed dwells to within half a tick. */
  lemma {:induction false} SpinLastsItsBeat(beats: nat, hold: Option<nat>)
    requires beats > 0
    ensures var beat := beats * 620 + if hold.Some? then hold.value else 0;
            beat - 50 <= Ticks(beats, hold) * 100 <= beat + 50
  {
    assert beats * FRAME_DWELL >= FRAME_DWELL;
  }

  lemma {:induction false} FramesLast(steps: seq<Step>, lo: nat, hi: nat, other: Step -> int)
    requires lo <= hi <= |steps| && forall k | lo <= k < hi :: FrameAt(steps, k)
    ensures RecordedMs(steps, hi, other) == RecordedMs(steps, lo, other) + (hi - lo) * FRAME_DWELL + Held(steps, lo, hi)
    decreases hi
  {
    if lo < hi {
      assert FrameAt(steps, hi - 1);
      FramesLast(steps, lo, hi - 1, other);
    }
  }

  lemma {:induction false} PrefixLasts(steps: seq<Step>, frames: seq<Frame>, script: seq<Entry>, cuts: seq<nat>,
                                       k: nat, other: Step -> int)
    requires Planned(steps, |steps|, frames, script, cuts) && k <= |script|
    ensures cuts[k] <= |steps|
    ensures var off := ScriptMs(script, k, other) - RecordedMs(steps, cuts[k], other);
            -50 * Spins(script, k) <= off <= 50 * Spins(script, k)
    decreases k
  {
    hide StopsAt, Spun, ThrobberCycleFrom, Ticks, FrameMs, Shown;
    CutsAscend(steps, |steps|, frames, script, cuts, k);
    if k > 0 {
      PrefixLasts(steps, frames, script, cuts, k - 1, other);
      var lo, hi, entry := cuts[k - 1], cuts[k - 1 + 1], script[k - 1];
      BlockOf(steps, |steps|, frames, script, cuts, k - 1);
      BlockLasts(steps, lo, hi, Shown(script, k - 1), entry, other);
    }
  }

  lemma {:induction false} BlockLasts(steps: seq<Step>, lo: nat, hi: nat, index: nat, entry: Entry, other: Step -> int)
    requires BlockIs(steps, lo, hi, index, entry)
    ensures lo < hi <= |steps|
    ensures var took := RecordedMs(steps, hi, other) - RecordedMs(steps, lo, other);
            match entry
            case Play(step) => took == other(step)
            case Show(_, hold) => took == FrameMs(hold)
            case Spin(_, _, _, _, beats, hold) => took - 50 <= Ticks(beats, hold) * THROBBER_TICK_MS <= took + 50
  {
    hide StopsAt, Spun, ThrobberCycleFrom, Ticks;
    if entry.Spin? {
      FramesLast(steps, lo, hi, other);
      SpinLastsItsBeat(entry.beats, entry.hold);
    }
  }

  /** Compacting changes how long a recording plays by at most half a tick per spin. */
  lemma {:induction false} PlanLastsAsLong(steps: seq<Step>, frames: seq<Frame>, script: seq<Entry>, cuts: seq<nat>,
                                           other: Step -> int)
    requires Planned(steps, |steps|, frames, script, cuts)
    ensures var off := ScriptMs(script, |script|, other) - RecordedMs(steps, |steps|, other);
            -50 * Spins(script, |script|) <= off <= 50 * Spins(script, |script|)
  {
    PrefixLasts(steps, frames, script, cuts, |script|, other);
  }
}
