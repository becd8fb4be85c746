/** Strings a process picks for itself, made safe to show: `truncate_at_cluster_edge` and
    `sanitize_display` of packages/secreq/src/provenance.rs. A string is its Unicode scalar
    values; what Unicode says of each is a parameter. */
module Provenance {

  const MAX_DISPLAY_CHARS: nat := 300

  const ELLIPSIS: char := '…'

  /** The Unicode tables: combining marks, characters invisible or reordering, and whitespace. */
  datatype Tables = Tables(mark: char -> bool, invisible: char -> bool, space: char -> bool) {
    /** What they say of the two characters the sanitiser writes itself. */
    ghost predicate Sound() {
      && space(' ') && !mark(' ') && !invisible(' ')
      && !space(ELLIPSIS) && !mark(ELLIPSIS) && !invisible(ELLIPSIS)
    }
  }

  // ---------------------------------------------------------------------
  // Cutting at a cluster edge
  // ---------------------------------------------------------------------

  /** How many marks `s` begins with. */
  function Leading(s: seq<char>, mark: char -> bool): (n: nat)
    ensures n <= |s| && (n < |s| ==> !mark(s[n]))
    ensures forall k | 0 <= k < n :: mark(s[k])
  {
    if s != [] && mark(s[0]) then
      assert forall k | 0 < k <= Leading(s[1..], mark) :: s[k] == s[1..][k - 1];
      1 + Leading(s[1..], mark)
    else 0
  }

  function Stripped(s: seq<char>, mark: char -> bool): (m: seq<char>)
    ensures m != [] ==> !mark(m[0])
  {
    s[Leading(s, mark)..]
  }

  /** Cutting `m` after `k` characters leaves no cluster split. */
  predicate Edge(m: seq<char>, k: nat, mark: char -> bool)
    requires k <= |m|
  {
    k == 0 || k == |m| || !mark(m[k])
  }

  /** `r` is the longest beginning of `m`, of at most `max` characters, that ends at an edge. */
  ghost predicate LongestCut(m: seq<char>, max: nat, r: seq<char>, mark: char -> bool)
  {
    && |r| <= max && r <= m && Edge(m, |r|, mark)
    && forall k: nat | |r| < k <= max && k <= |m| :: !Edge(m, k, mark)
  }

  lemma {:induction false} LongestCutIsUnique(m: seq<char>, max: nat, r: seq<char>, q: seq<char>, mark: char -> bool)
    requires LongestCut(m, max, r, mark) && LongestCut(m, max, q, mark)
    ensures r == q
  {
    assert |r| == |q|;
    assert r == m[..|r|] && q == m[..|q|];
  }

  method TruncateAtClusterEdge(s: seq<char>, max: nat, mark: char -> bool) returns (kept: seq<char>, truncated: bool)
    ensures LongestCut(Stripped(s, mark), max, kept, mark)
    ensures truncated <==> |kept| < |Stripped(s, mark)|
    ensures truncated <==> |Stripped(s, mark)| > max
  {
    kept, truncated := [], false;
    ghost var lead := Leading(s, mark);
    ghost var m := Stripped(s, mark);
    var i := 0;
    while i < |s|
      invariant i <= |s| && |kept| <= max && !truncated
      invariant if i <= lead then kept == [] else kept == m[..i - lead] && i - lead <= max
    {
      var c := s[i];
      i := i + 1;
      if kept == [] && mark(c) {
        assert i <= lead;
        continue;
      }
      if |kept| == max {
        truncated := true;
        assert m[max] == c;
        if mark(c) {
          // The cap fell inside a cluster: drop its marks and their base.
          while kept != [] && mark(kept[|kept| - 1])
            invariant kept <= m && |kept| <= max
            invariant forall k: nat | |kept| < k <= max :: mark(m[k])
            invariant mark(m[|kept|])
          {
            kept := kept[..|kept| - 1];
          }
          kept := kept[..|kept| - 1];
        }
        break;
      }
      assert m[..i - lead] == m[..i - 1 - lead] + [c];
      kept := kept + [c];
    }
    assert !truncated ==> kept == m;
  }

  // ---------------------------------------------------------------------
  // What a reader would see of a string
  // ---------------------------------------------------------------------

  function Push(v: seq<char>, c: char, u: Tables): seq<char>
  {
    if u.space(c) then (if v != [] && v[|v| - 1] != ' ' then v + [' '] else v)
    else if u.invisible(c) then v
    else v + [c]
  }

  /** Runs of whitespace become one space, none at the front; invisible characters vanish. */
  function Visible(raw: seq<char>, u: Tables): seq<char>
  {
    if raw == [] then [] else Push(Visible(raw[..|raw| - 1], u), raw[|raw| - 1], u)
  }

  function Trim(s: seq<char>): (r: seq<char>)
    ensures r <= s && (r != [] ==> r[|r| - 1] != ' ')
    ensures forall k | |r| <= k < |s| :: s[k] == ' '
  {
    if s != [] && s[|s| - 1] == ' ' then Trim(s[..|s| - 1]) else s
  }

  /** Nothing invisible, no whitespace but single spaces. */
  ghost predicate Tidy(v: seq<char>, u: Tables)
  {
    && (forall k | 0 <= k < |v| :: !u.invisible(v[k]) && (u.space(v[k]) ==> v[k] == ' '))
    && forall k | 0 < k < |v| && v[k] == ' ' :: v[k - 1] != ' '
  }

  lemma {:induction false} VisibleIsTidy(raw: seq<char>, u: Tables)
    requires u.Sound()
    ensures Tidy(Visible(raw, u), u)
    ensures Visible(raw, u) != [] ==> Visible(raw, u)[0] != ' '
  {
    if raw != [] {
      VisibleIsTidy(raw[..|raw| - 1], u);
    }
  }

  lemma {:induction false} VisibleSnoc(raw: seq<char>, c: char, u: Tables)
    ensures Visible(raw + [c], u) == Push(Visible(raw, u), c, u)
  {
    assert (raw + [c])[..|raw|] == raw;
  }

  /** Whitespace separates what stands on either side of it, whatever else is filtered away:
      tokens are never joined, and what follows does not depend on what came before. */
  lemma {:induction false} WhitespaceKeepsTokensApart(a: seq<char>, c: char, b: seq<char>, u: Tables)
    requires u.Sound() && u.space(c)
    ensures var before := if Visible(a, u) == [] then [] else Trim(Visible(a, u)) + [' '];
            Visible(a + [c] + b, u) == before + Visible(b, u)
    decreases |b|
  {
    hide Push, Tidy, Visible, Trim;
    NothingVisible(u);
    var before := if Visible(a, u) == [] then [] else Trim(Visible(a, u)) + [' '];
    if b == [] {
      SpaceAfter(a, c, u);
      VisibleSnoc(a, c, u);
      assert a + [c] + b == a + [c] && before + [] == before;
    } else {
      var init, last := b[..|b| - 1], b[|b| - 1];
      WhitespaceKeepsTokensApart(a, c, init, u);
      assert a + [c] + b == (a + [c] + init) + [last] && b == init + [last];
      VisibleSnoc(a + [c] + init, last, u);
      VisibleSnoc(init, last, u);
      PushAfter(before, Visible(init, u), last, u);
    }
  }

  lemma {:induction false} SpaceAfter(a: seq<char>, c: char, u: Tables)
    requires u.Sound() && u.space(c)
    ensures Push(Visible(a, u), c, u) == if Visible(a, u) == [] then [] else Trim(Visible(a, u)) + [' ']
  {
    VisibleIsTidy(a, u);
    TrimTidy(Visible(a, u), u);
  }

  lemma {:induction false} PushAfter(before: seq<char>, v: seq<char>, c: char, u: Tables)
    requires before != [] ==> before[|before| - 1] == ' '
    ensures Push(before + v, c, u) == before + Push(v, c, u)
  {
    if v == [] {
      assert before + v == before;
    } else {
      assert (before + v)[|before + v| - 1] == v[|v| - 1];
    }
  }

  lemma {:induction false} TrimTidy(v: seq<char>, u: Tables)
    requires Tidy(v, u) && (v != [] ==> v[0] != ' ')
    ensures if v != [] && v[|v| - 1] == ' ' then Trim(v) + [' '] == v else Trim(v) == v
  {
    if v != [] && v[|v| - 1] == ' ' {
      assert Trim(v) == Trim(v[..|v| - 1]);
    }
  }

  /** A tidy string shows as itself. */
  lemma {:induction false} TidyIsUnchanged(v: seq<char>, u: Tables)
    requires u.Sound() && Tidy(v, u) && (v != [] ==> v[0] != ' ')
    ensures Visible(v, u) == v
  {
    if v != [] {
      var init := v[..|v| - 1];
      TidyIsUnchanged(init, u);
      assert v == init + [v[|v| - 1]];
    }
  }

  lemma {:induction false} VisibleGrows(a: seq<char>, b: seq<char>, u: Tables)
    ensures Visible(a, u) <= Visible(a + b, u)
    decreases |b|
  {
    if b == [] {
      assert a + b == a;
    } else {
      var init := b[..|b| - 1];
      VisibleGrows(a, init, u);
      assert a + b == (a + init) + [b[|b| - 1]];
      VisibleSnoc(a + init, b[|b| - 1], u);
    }
  }

  // ---------------------------------------------------------------------
  // sanitize_display
  // ---------------------------------------------------------------------

  /** How much of what is visible the scan collects before it stops. */
  function Collected(v: seq<char>): (n: nat)
    ensures n <= |v| && n <= MAX_DISPLAY_CHARS + 2 && (n < |v| ==> n > MAX_DISPLAY_CHARS)
  {
    if |v| <= MAX_DISPLAY_CHARS then |v|
    else if v[MAX_DISPLAY_CHARS] != ' ' || |v| == MAX_DISPLAY_CHARS + 1 then MAX_DISPLAY_CHARS + 1
    else MAX_DISPLAY_CHARS + 2
  }

  /** What the scan hands to the cut. */
  function Scanned(raw: seq<char>, u: Tables): seq<char>
  {
    Visible(raw, u)[..Collected(Visible(raw, u))]
  }

  /** The scan goes on at `v` only if it has not collected enough. */
  ghost predicate GoesOn(v: seq<char>)
  {
    |v| <= MAX_DISPLAY_CHARS || (|v| == MAX_DISPLAY_CHARS + 1 && v[MAX_DISPLAY_CHARS] == ' ')
  }

  lemma {:induction false} ScanStops(v: seq<char>, all: seq<char>)
    requires v <= all
    requires (v == all && GoesOn(v))
             || (|v| > MAX_DISPLAY_CHARS && v[|v| - 1] != ' ' && GoesOn(v[..|v| - 1]))
    ensures v == all[..Collected(all)]
  {
    assert v == all[..|v|];
  }

  /** The characters a reader would see, as far as they can matter. */
  method Scan(raw: seq<char>, u: Tables) returns (visible: seq<char>)
    requires u.Sound()
    ensures visible == Scanned(raw, u)
  {
    visible := [];
    var visibleChars := 0;
    var lastWasSpace := false;
    var i := 0;
    assert raw[..0] == [];
    while i < |raw|
      invariant i <= |raw| && visible == Visible(raw[..i], u) && GoesOn(visible)
      invariant visibleChars == |visible|
      invariant lastWasSpace <==> visible != [] && visible[|visible| - 1] == ' '
    {
      var c := raw[i];
      assert raw[..i + 1] == raw[..i] + [c];
      VisibleSnoc(raw[..i], c, u);
      i := i + 1;
      if u.space(c) {
        if !lastWasSpace && visible != [] {
          visible := visible + [' '];
          visibleChars := visibleChars + 1;
          lastWasSpace := true;
        }
        continue;
      }
      if u.invisible(c) {
        continue;
      }
      lastWasSpace := false;
      visible := visible + [c];
      visibleChars := visibleChars + 1;
      assert visible[..|visible| - 1] == Visible(raw[..i - 1], u);
      if visibleChars > MAX_DISPLAY_CHARS {
        break;
      }
    }
    VisibleGrows(raw[..i], raw[i..], u);
    assert raw == raw[..i] + raw[i..];
    assert i == |raw| ==> raw[..i] == raw;
    ScanStops(visible, Visible(raw, u));
  }

  method TrimEnd(s: seq<char>) returns (out: seq<char>)
    ensures out == Trim(s)
  {
    out := s;
    while out != [] && out[|out| - 1] == ' '
      invariant Trim(out) == Trim(s)
    {
      out := out[..|out| - 1];
    }
  }

  /** A cut of a tidy string is safe to show, with or without an ellipsis. */
  lemma {:induction false} CutIsSafe(v: seq<char>, kept: seq<char>, more: seq<char>, u: Tables)
    requires u.Sound() && Tidy(v, u) && LongestCut(Stripped(v, u.mark), MAX_DISPLAY_CHARS, kept, u.mark)
    requires more == [] || more == [ELLIPSIS]
    ensures var out := Trim(kept) + more;
            && Tidy(out, u) && |out| <= MAX_DISPLAY_CHARS + 1
            && (out != [] ==> !u.mark(out[0]) && out[|out| - 1] != ' ')
  {
    hide Tidy, Leading, Trim;
    var lead, trimmed := Leading(v, u.mark), Trim(kept);
    var m := Stripped(v, u.mark);
    TidySlice(v, lead, |v|, u);
    assert m == v[lead..|v|];
    TidySlice(m, 0, |trimmed|, u);
    assert m[0..|trimmed|] == trimmed;
    assert trimmed != [] ==> trimmed[0] == m[0];
    if more == [] {
      assert trimmed + more == trimmed;
    } else {
      TidyMarked(trimmed, u);
    }
  }

  lemma {:induction false} TidySlice(v: seq<char>, lo: nat, hi: nat, u: Tables)
    requires Tidy(v, u) && lo <= hi <= |v|
    ensures Tidy(v[lo..hi], u)
  {
    var w := v[lo..hi];
    forall k | 0 < k < |w| && w[k] == ' '
      ensures w[k - 1] != ' '
    {
      assert v[lo + k] == ' ' && w[k - 1] == v[lo + k - 1];
    }
  }

  lemma {:induction false} TidyMarked(v: seq<char>, u: Tables)
    requires u.Sound() && Tidy(v, u)
    ensures Tidy(v + [ELLIPSIS], u) && ELLIPSIS != ' '
  {
  }

  method SanitizeDisplay(raw: seq<char>, u: Tables) returns (out: seq<char>, ghost kept: seq<char>)
    requires u.Sound()
    ensures LongestCut(Stripped(Scanned(raw, u), u.mark), 300, kept, u.mark)
    ensures out == Trim(kept) + if |kept| < |Stripped(Scanned(raw, u), u.mark)| then [ELLIPSIS] else []
    ensures Tidy(out, u) && |out| <= 301
    ensures out != [] ==> !u.mark(out[0]) && out[|out| - 1] != ' '
  {
    var visible := Scan(raw, u);
    VisibleIsTidy(raw, u);
    var cut, truncated := TruncateAtClusterEdge(visible, MAX_DISPLAY_CHARS, u.mark);
    kept := cut;
    CutIsSafe(visible, cut, if truncated then [ELLIPSIS] else [], u);
    out := TrimEnd(cut);
    if truncated {
      out := out + [ELLIPSIS];
    } else {
      assert out + [] == out;
    }
  }

  // ---------------------------------------------------------------------
  // Said another way: the words, one space apart
  // ---------------------------------------------------------------------

  /** `raw` without the characters nobody sees. */
  function Filtered(raw: seq<char>, u: Tables): seq<char>
  {
    if raw == [] then []
    else (if u.invisible(raw[0]) && !u.space(raw[0]) then [] else [raw[0]]) + Filtered(raw[1..], u)
  }

  /** A character nobody sees leaves no trace, not even a space. */
  lemma {:induction false} InvisibleVanishes(a: seq<char>, c: char, b: seq<char>, u: Tables)
    requires u.invisible(c) && !u.space(c)
    ensures Visible(a + [c] + b, u) == Visible(a + b, u)
    decreases |b|
  {
    if b == [] {
      VisibleSnoc(a, c, u);
      assert a + [c] + b == a + [c] && a + b == a;
    } else {
      var init, last := b[..|b| - 1], b[|b| - 1];
      InvisibleVanishes(a, c, init, u);
      assert a + [c] + b == (a + [c] + init) + [last] && a + b == (a + init) + [last];
      VisibleSnoc(a + [c] + init, last, u);
      VisibleSnoc(a + init, last, u);
    }
  }

  lemma {:induction false} FilteredFrom(a: seq<char>, raw: seq<char>, u: Tables)
    ensures Visible(a + raw, u) == Visible(a + Filtered(raw, u), u)
    decreases |raw|
  {
    hide Visible;
    if raw != [] {
      var c, rest := raw[0], raw[1..];
      assert a + raw == a + [c] + rest;
      if u.invisible(c) && !u.space(c) {
        InvisibleVanishes(a, c, rest, u);
        FilteredFrom(a, rest, u);
        assert [] + Filtered(rest, u) == Filtered(rest, u);
      } else {
        FilteredFrom(a + [c], rest, u);
        assert a + [c] + Filtered(rest, u) == a + ([c] + Filtered(rest, u));
      }
    } else {
      assert Filtered(raw, u) == raw;
    }
  }

  /** So what is shown, and where it is cut, is that of the string without them. */
  lemma {:induction false} FilteredShowsTheSame(raw: seq<char>, u: Tables)
    ensures Visible(raw, u) == Visible(Filtered(raw, u), u) && Scanned(raw, u) == Scanned(Filtered(raw, u), u)
  {
    hide Visible, Filtered;
    FilteredFrom([], raw, u);
    assert [] + raw == raw && [] + Filtered(raw, u) == Filtered(raw, u);
  }

  /** How far the first word goes. */
  function WordLength(s: seq<char>, u: Tables): (n: nat)
    ensures n <= |s| && (n < |s| ==> u.space(s[n])) && forall k | 0 <= k < n :: !u.space(s[k])
  {
    if s == [] || u.space(s[0]) then 0
    else
      assert forall k | 0 < k < |s| :: s[k] == s[1..][k - 1];
      1 + WordLength(s[1..], u)
  }

  /** What stands between whitespace. */
  function Words(s: seq<char>, u: Tables): seq<seq<char>>
    decreases |s|
  {
    if s == [] then []
    else if u.space(s[0]) then Words(s[1..], u)
    else [s[..WordLength(s, u)]] + Words(s[WordLength(s, u)..], u)
  }

  function Spaced(words: seq<seq<char>>): seq<char>
  {
    if words == [] then [] else if |words| == 1 then words[0] else words[0] + [' '] + Spaced(words[1..])
  }

  lemma {:induction false} WordIsVisible(w: seq<char>, u: Tables)
    requires forall k | 0 <= k < |w| :: !u.space(w[k]) && !u.invisible(w[k])
    ensures Visible(w, u) == w
  {
    if w != [] {
      WordIsVisible(w[..|w| - 1], u);
      assert w == w[..|w| - 1] + [w[|w| - 1]];
    }
  }

  lemma {:induction false} TrimBehind(a: seq<char>, b: seq<char>)
    requires a != [] && a[|a| - 1] != ' '
    ensures Trim(a + [' '] + b) == if Trim(b) == [] then a else a + [' '] + Trim(b)
    decreases |b|
  {
    if b == [] {
      assert (a + [' '] + b)[..|a|] == a;
    } else {
      var init := b[..|b| - 1];
      assert (a + [' '] + b)[..|a| + |b|] == a + [' '] + init;
      if b[|b| - 1] == ' ' {
        TrimBehind(a, init);
      }
    }
  }

  lemma {:induction false} WordsAreVisible(s: seq<char>, u: Tables)
    requires u.Sound() && AllSeen(s, u)
    ensures Trim(Visible(s, u)) == Spaced(Words(s, u))
    ensures Spaced(Words(s, u)) == [] ==> Words(s, u) == []
    decreases |s|
  {
    hide Visible, Trim;
    if s == [] {
      NothingVisible(u);
    } else if u.space(s[0]) {
      assert s == [] + [s[0]] + s[1..];
      WhitespaceKeepsTokensApart([], s[0], s[1..], u);
      NothingVisible(u);
      assert [] + Visible(s[1..], u) == Visible(s[1..], u);
      WordsAreVisible(s[1..], u);
    } else {
      FirstWord(s, u);
    }
  }

  lemma {:induction false} NothingVisible(u: Tables)
    ensures Visible([], u) == [] && Trim([]) == []
  {
  }

  lemma {:induction false} TrimsNothing(w: seq<char>)
    requires w != [] ==> w[|w| - 1] != ' '
    ensures Trim(w) == w
  {
  }

  lemma {:induction false} FirstWord(s: seq<char>, u: Tables)
    requires u.Sound() && AllSeen(s, u)
    requires s != [] && !u.space(s[0])
    ensures Trim(Visible(s, u)) == Spaced(Words(s, u)) && Spaced(Words(s, u)) != []
    decreases |s|, 0
  {
    hide Visible, Trim;
    var n := WordLength(s, u);
    var w := s[..n];
    WordIsVisible(w, u);
    TrimsNothing(w);
    if n == |s| {
      assert w == s && Words(s[n..], u) == [];
    } else {
      var rest := s[n + 1..];
      assert s == w + [s[n]] + rest && s[n..][1..] == rest;
      WhitespaceKeepsTokensApart(w, s[n], rest, u);
      TrimBehind(w, Visible(rest, u));
      WordsAreVisible(rest, u);
      assert Words(s[n..], u) == Words(rest, u);
      assert ([w] + Words(rest, u))[1..] == Words(rest, u);
    }
  }

  ghost predicate AllSeen(s: seq<char>, u: Tables)
  {
    forall k | 0 <= k < |s| :: u.invisible(s[k]) ==> u.space(s[k])
  }

  lemma {:induction false} NothingInvisibleLeft(raw: seq<char>, u: Tables)
    ensures AllSeen(Filtered(raw, u), u)
  {
    if raw != [] {
      NothingInvisibleLeft(raw[1..], u);
      var rest, s := Filtered(raw[1..], u), Filtered(raw, u);
      if u.invisible(raw[0]) && !u.space(raw[0]) {
        assert s == rest by { assert s == [] + rest; }
      } else {
        assert s == [raw[0]] + rest;
        assert forall k | 0 < k < |s| :: s[k] == rest[k - 1];
      }
    }
  }

  /** What is visible, but for a space at the end, is the words of the string, unseen characters
      left out, one space apart. */
  lemma {:induction false} VisibleIsTheWords(raw: seq<char>, u: Tables)
    requires u.Sound()
    ensures Trim(Visible(raw, u)) == Spaced(Words(Filtered(raw, u), u))
  {
    FilteredShowsTheSame(raw, u);
    NothingInvisibleLeft(raw, u);
    WordsAreVisible(Filtered(raw, u), u);
  }

  /** A string that fits, with no mark in front, is shown as its words. */
  lemma {:induction false} ShortStringsShowTheirWords(raw: seq<char>, kept: seq<char>, u: Tables)
    requires u.Sound() && |Visible(raw, u)| <= MAX_DISPLAY_CHARS && Leading(Visible(raw, u), u.mark) == 0
    requires LongestCut(Stripped(Scanned(raw, u), u.mark), MAX_DISPLAY_CHARS, kept, u.mark)
    ensures |kept| == |Stripped(Scanned(raw, u), u.mark)| && Trim(kept) == Spaced(Words(Filtered(raw, u), u))
  {
    hide Visible, Trim, Words, Filtered, Spaced;
    VisibleIsTheWords(raw, u);
    var v := Visible(raw, u);
    assert Scanned(raw, u) == v && Stripped(v, u.mark) == v;
    assert Edge(v, |v|, u.mark);
  }

  // ---------------------------------------------------------------------
  // Stopping early
  // ---------------------------------------------------------------------

  /** The ellipsis marks every cut: something visible after the leading marks was left out. */
  ghost predicate EllipsisIsHonest(raw: seq<char>, kept: seq<char>, u: Tables)
  {
    |kept| < |Stripped(Scanned(raw, u), u.mark)| <==> |kept| < |Stripped(Visible(raw, u), u.mark)|
  }

  lemma {:induction false} LeadingOfPrefix(v: seq<char>, n: nat, mark: char -> bool)
    requires n <= |v| && Leading(v, mark) <= n
    ensures Leading(v[..n], mark) == Leading(v, mark)
  {
    var lead, short := Leading(v, mark), Leading(v[..n], mark);
    assert short < n ==> v[..n][short] == v[short];
    assert lead < n ==> v[..n][lead] == v[lead];
  }

  lemma {:induction false} LeadingOfMarks(v: seq<char>, n: nat, mark: char -> bool)
    requires n <= |v| && n <= Leading(v, mark)
    ensures Leading(v[..n], mark) == n
  {
    assert forall k | 0 <= k < n :: v[..n][k] == v[k];
  }

  /** The scan stops early, so it can miss what lies beyond; it is honest about it if and only if
      it did not stop, or more than the limit was left after the leading marks, or there was
      nothing but marks. */
  lemma {:induction false} EllipsisHonestExactlyWhen(raw: seq<char>, kept: seq<char>, u: Tables)
    requires LongestCut(Stripped(Scanned(raw, u), u.mark), MAX_DISPLAY_CHARS, kept, u.mark)
    ensures EllipsisIsHonest(raw, kept, u) <==>
            || |Scanned(raw, u)| == |Visible(raw, u)|
            || |Scanned(raw, u)| - Leading(Scanned(raw, u), u.mark) > MAX_DISPLAY_CHARS
            || Leading(Visible(raw, u), u.mark) == |Visible(raw, u)|
  {
    var v, w := Visible(raw, u), Scanned(raw, u);
    var m := Stripped(w, u.mark);
    if |w| < |v| {
      if Leading(v, u.mark) <= |w| {
        LeadingOfPrefix(v, |w|, u.mark);
      } else {
        LeadingOfMarks(v, |w|, u.mark);
      }
      if |m| <= MAX_DISPLAY_CHARS {
        assert Edge(m, |m|, u.mark);
        assert |kept| == |m|;
      }
    } else {
      assert w == v;
    }
  }

  /** With no marks in front, stopping early changes nothing: the cut, and whether it is marked,
      are those of the whole visible string. */
  lemma {:induction false} StoppingEarlyChangesNothing(raw: seq<char>, kept: seq<char>, u: Tables)
    requires Leading(Visible(raw, u), u.mark) == 0
    requires LongestCut(Stripped(Scanned(raw, u), u.mark), MAX_DISPLAY_CHARS, kept, u.mark)
    ensures LongestCut(Visible(raw, u), MAX_DISPLAY_CHARS, kept, u.mark) && EllipsisIsHonest(raw, kept, u)
  {
    var v, w := Visible(raw, u), Scanned(raw, u);
    LeadingOfPrefix(v, |w|, u.mark);
    EllipsisHonestExactlyWhen(raw, kept, u);
    assert Stripped(w, u.mark) == w && v == v[..|v|];
    forall k: nat | |kept| < k <= MAX_DISPLAY_CHARS && k <= |v|
      ensures !Edge(v, k, u.mark)
    {
      assert !Edge(w, k, u.mark);
    }
  }

  /** One mark in front, and a string one too long loses its end unmarked. */
  lemma {:induction false} AMarkInFrontHidesTheCut(mark: char, letter: char, u: Tables)
    requires u.Sound() && u.mark(mark) && !u.invisible(mark) && !u.space(mark)
    requires !u.mark(letter) && !u.invisible(letter) && !u.space(letter)
    ensures var raw := [mark] + seq(MAX_DISPLAY_CHARS + 1, _ => letter);
            forall kept | LongestCut(Stripped(Scanned(raw, u), u.mark), MAX_DISPLAY_CHARS, kept, u.mark) ::
              !EllipsisIsHonest(raw, kept, u)
  {
    var raw := [mark] + seq(MAX_DISPLAY_CHARS + 1, _ => letter);
    TidyIsUnchanged(raw, u);
    assert raw[1] == letter && raw[MAX_DISPLAY_CHARS] == letter;
    var w := Scanned(raw, u);
    assert w[0] == mark && w[1] == letter;
    assert Leading(w, u.mark) == 1;
    forall kept | LongestCut(Stripped(w, u.mark), MAX_DISPLAY_CHARS, kept, u.mark)
      ensures !EllipsisIsHonest(raw, kept, u)
    {
      EllipsisHonestExactlyWhen(raw, kept, u);
    }
  }
}
