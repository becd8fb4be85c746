/** The streaming output masker of packages/secreq/src/mask.rs. */
module Mask {
  import opened Common

  // ---------------------------------------------------------------------
  // What the masker is for, over a whole stream and the values as given
  // ---------------------------------------------------------------------

  /** Length of the longest of `values` that `x` starts with, 0 when none does. */
  function Longest(values: seq<Bytes>, x: Bytes): (n: nat)
    ensures n <= |x|
  {
    if values == [] then 0
    else
      var n := Longest(values[1..], x);
      if values[0] <= x && |values[0]| > n then |values[0]| else n
  }

  lemma {:induction false} LongestIsLongest(values: seq<Bytes>, x: Bytes)
    ensures var n := Longest(values, x);
            && (n > 0 ==> x[..n] in values)
            && forall s | s in values && s <= x :: |s| <= n
  {
    if values != [] {
      LongestIsLongest(values[1..], x);
      assert values[0] <= x ==> x[..|values[0]|] == values[0];
    }
  }

  /** How many bytes one decision at the head of `x` consumes. */
  function Taken(values: seq<Bytes>, x: Bytes): (n: nat)
    requires x != []
    ensures 0 < n <= |x|
  {
    var n := Longest(values, x);
    if n > 0 then n else 1
  }

  /** What that decision emits: the mask for a secret, else the byte itself. */
  function Shown(values: seq<Bytes>, mask: Bytes, x: Bytes): Bytes
    requires x != []
  {
    if Longest(values, x) > 0 then mask else [x[0]]
  }

  /** Leftmost-longest rewrite of a whole stream. */
  function Redact(values: seq<Bytes>, mask: Bytes, x: Bytes): (r: Bytes)
    decreases |x|
  {
    if x == [] then []
    else Shown(values, mask, x) + Redact(values, mask, x[Taken(values, x)..])
  }

  /** `x` is a strict prefix of some value: more bytes may complete it. */
  predicate Pending(values: seq<Bytes>, x: Bytes)
  {
    exists s :: s in values && x < s
  }

  datatype Fed = Fed(out: Bytes, carry: Bytes)

  /** What a masker fed `x` from the start has emitted, and what it still holds. */
  function Feed(values: seq<Bytes>, mask: Bytes, x: Bytes): (r: Fed)
    decreases |x|
  {
    if x == [] || Pending(values, x) then Fed([], x)
    else After(Shown(values, mask, x), Feed(values, mask, x[Taken(values, x)..]))
  }

  /** `r`, with `out` emitted before it. */
  function After(out: Bytes, r: Fed): Fed
  {
    Fed(out + r.out, r.carry)
  }

  lemma {:induction false} AfterAfter(a: Bytes, b: Bytes, r: Fed)
    ensures After(a, After(b, r)) == After(a + b, r)
  {
    assert a + (b + r.out) == (a + b) + r.out;
  }

  // ---------------------------------------------------------------------
  // Chunk independence
  // ---------------------------------------------------------------------

  /** A position is held back exactly when later bytes could change what it matches. */
  lemma {:induction false} HeldExactlyWhenUndecided(values: seq<Bytes>, x: Bytes)
    ensures Pending(values, x) <==> exists t: Bytes :: Longest(values, x + t) > |x|
  {
    if Pending(values, x) {
      var s :| s in values && x < s;
      assert x + s[|x|..] == s;
      LongestIsLongest(values, x + s[|x|..]);
    }
    if t: Bytes :| Longest(values, x + t) > |x| {
      LongestIsLongest(values, x + t);
      var s := (x + t)[..Longest(values, x + t)];
      assert s in values && x < s;
    }
  }

  /** Where nothing is held back, no later byte changes the match. */
  lemma {:induction false} DecidedMatchIsFinal(values: seq<Bytes>, x: Bytes, t: Bytes)
    requires x != [] && !Pending(values, x)
    ensures Longest(values, x + t) == Longest(values, x)
    ensures !Pending(values, x + t)
  {
    HeldExactlyWhenUndecided(values, x);
    LongestIsLongest(values, x);
    LongestIsLongest(values, x + t);
    var n, m := Longest(values, x + t), Longest(values, x);
    assert n <= |x|;
    assert (x + t)[..n] == x[..n] <= x;
    assert x[..m] <= x + t;
    assert forall s | s in values && x + t < s :: x < s;
  }

  /** Feeding on from where a first batch stopped gives what one batch would. */
  lemma {:induction false} FeedResumes(values: seq<Bytes>, mask: Bytes, x: Bytes, y: Bytes)
    ensures var first := Feed(values, mask, x);
            Feed(values, mask, x + y) == After(first.out, Feed(values, mask, first.carry + y))
    decreases |x|
  {
    if x != [] && !Pending(values, x) {
      DecidedMatchIsFinal(values, x, y);
      var n := Taken(values, x);
      assert (x + y)[n..] == x[n..] + y;
      FeedResumes(values, mask, x[n..], y);
      var tail := Feed(values, mask, x[n..]);
      AfterAfter(Shown(values, mask, x), tail.out, Feed(values, mask, tail.carry + y));
    }
  }

  /** Flushing after any amount of feeding completes the whole-stream rewrite. */
  lemma {:induction false} FeedThenFlush(values: seq<Bytes>, mask: Bytes, x: Bytes)
    ensures var r := Feed(values, mask, x);
            r.out + Redact(values, mask, r.carry) == Redact(values, mask, x)
    decreases |x|
  {
    hide Longest, Pending, Shown;
    if x != [] && !Pending(values, x) {
      var n := Taken(values, x);
      FeedThenFlush(values, mask, x[n..]);
      var tail := Feed(values, mask, x[n..]);
      var shown, last := Shown(values, mask, x), Redact(values, mask, tail.carry);
      assert (shown + tail.out) + last == shown + (tail.out + last);
    }
  }

  /** After every push the carry is empty or an unfinished secret, and a suffix of the stream. */
  lemma {:induction false} CarryIsPending(values: seq<Bytes>, mask: Bytes, x: Bytes)
    ensures var c := Feed(values, mask, x).carry;
            && (c == [] || Pending(values, c))
            && |c| <= |x| && c == x[|x| - |c|..]
    decreases |x|
  {
    if x != [] && !Pending(values, x) {
      CarryIsPending(values, mask, x[Taken(values, x)..]);
    }
  }

  /** The output and the state after a list of pushes, starting from `carry`. */
  function FeedAll(values: seq<Bytes>, mask: Bytes, carry: Bytes, chunks: seq<Bytes>): Fed
    decreases |chunks|
  {
    if chunks == [] then Fed([], carry)
    else
      var first := Feed(values, mask, carry + chunks[0]);
      After(first.out, FeedAll(values, mask, first.carry, chunks[1..]))
  }

  /** However a stream is cut, the bytes emitted so far and the bytes held back are those of
      one push of the whole of it. */
  lemma {:induction false} ChunksDoNotMatter(values: seq<Bytes>, mask: Bytes, carry: Bytes, chunks: seq<Bytes>)
    requires carry == [] || Pending(values, carry)
    ensures FeedAll(values, mask, carry, chunks) == Feed(values, mask, carry + Flatten(chunks))
    decreases |chunks|
  {
    if chunks == [] {
      assert carry + Flatten(chunks) == carry;
    } else {
      var x := carry + chunks[0];
      var held := Feed(values, mask, x).carry;
      assert held == [] || Pending(values, held) by {
        CarryIsPending(values, mask, x);
      }
      ChunksDoNotMatter(values, mask, held, chunks[1..]);
      assert Feed(values, mask, x + Flatten(chunks[1..])) == FeedAll(values, mask, carry, chunks) by {
        FeedResumes(values, mask, x, Flatten(chunks[1..]));
      }
      FlattenHead(carry, chunks);
    }
  }

  /** For every split of every stream: the pushes and the flush emit the whole-stream rewrite. */
  lemma {:induction false} ChunkIndependence(values: seq<Bytes>, mask: Bytes, chunks: seq<Bytes>)
    ensures var r := FeedAll(values, mask, [], chunks);
            r.out + Redact(values, mask, r.carry) == Redact(values, mask, Flatten(chunks))
  {
    ChunksDoNotMatter(values, mask, [], chunks);
    assert [] + Flatten(chunks) == Flatten(chunks);
    FeedThenFlush(values, mask, Flatten(chunks));
  }

  // ---------------------------------------------------------------------
  // Redaction
  // ---------------------------------------------------------------------

  /** Which bytes of the stream were replaced rather than copied. */
  function Hidden(values: seq<Bytes>, x: Bytes): (h: seq<bool>)
    ensures |h| == |x|
    decreases |x|
  {
    if x == [] then []
    else seq(Taken(values, x), _ => Longest(values, x) > 0) + Hidden(values, x[Taken(values, x)..])
  }

  /** One piece of the stream: a byte copied through, or a secret replaced. */
  datatype Piece = Plain(b: Byte) | Secret(text: Bytes) {
    function Source(): Bytes { if Plain? then [b] else text }

    function Output(mask: Bytes): Bytes { if Plain? then [b] else mask }

    function Flags(): seq<bool> { seq(|Source()|, _ => Secret?) }
  }

  function Source(pieces: seq<Piece>): Bytes
  {
    if pieces == [] then [] else pieces[0].Source() + Source(pieces[1..])
  }

  function Output(mask: Bytes, pieces: seq<Piece>): Bytes
  {
    if pieces == [] then [] else pieces[0].Output(mask) + Output(mask, pieces[1..])
  }

  function Flags(pieces: seq<Piece>): seq<bool>
  {
    if pieces == [] then [] else pieces[0].Flags() + Flags(pieces[1..])
  }

  /** The decisions of the rewrite, in order. */
  function Pieces(values: seq<Bytes>, x: Bytes): seq<Piece>
    decreases |x|
  {
    if x == [] then []
    else
      var n := Taken(values, x);
      [if Longest(values, x) > 0 then Secret(x[..n]) else Plain(x[0])] + Pieces(values, x[n..])
  }

  /** The output is the stream itself with some of its secrets, and nothing else, replaced
      by the mask: exactly the bytes `Hidden` marks. */
  lemma {:induction false} RedactOnlyReplacesSecrets(values: seq<Bytes>, mask: Bytes, x: Bytes)
    ensures Source(Pieces(values, x)) == x
    ensures Output(mask, Pieces(values, x)) == Redact(values, mask, x)
    ensures Flags(Pieces(values, x)) == Hidden(values, x)
    decreases |x|
  {
    if x != [] {
      var rest := x[Taken(values, x)..];
      RedactOnlyReplacesSecrets(values, mask, rest);
      HeadPiece(values, mask, x);
      Halves(x, Taken(values, x));
    }
  }

  lemma {:induction false} HeadPiece(values: seq<Bytes>, mask: Bytes, x: Bytes)
    requires x != []
    ensures var n := Taken(values, x);
            var pieces, rest := Pieces(values, x), Pieces(values, x[n..]);
            && Source(pieces) == x[..n] + Source(rest)
            && Output(mask, pieces) == Shown(values, mask, x) + Output(mask, rest)
            && Flags(pieces) == seq(n, _ => Longest(values, x) > 0) + Flags(rest)
  {
    var n := Taken(values, x);
    var pieces := Pieces(values, x);
    assert pieces[1..] == Pieces(values, x[n..]);
    assert pieces[0].Source() == x[..n];
  }

  lemma {:induction false} ReplacedPiecesAreSecrets(values: seq<Bytes>, x: Bytes, k: nat)
    requires k < |Pieces(values, x)| && Pieces(values, x)[k].Secret?
    ensures Pieces(values, x)[k].text in values && Pieces(values, x)[k].text != []
    decreases |x|
  {
    hide Longest;
    LongestIsLongest(values, x);
    if k > 0 {
      ReplacedPiecesAreSecrets(values, x[Taken(values, x)..], k - 1);
    }
  }

  /** The first byte of every occurrence of a secret is replaced. */
  lemma {:induction false} EveryOccurrenceIsHit(values: seq<Bytes>, x: Bytes, at: nat, s: Bytes)
    requires s in values && s != []
    requires at < |x| && s <= x[at..]
    ensures Hidden(values, x)[at]
    decreases |x|
  {
    LongestIsLongest(values, x);
    assert x[0..] == x;
    var n := Taken(values, x);
    if at >= n {
      assert x[n..][at - n..] == x[at..];
      EveryOccurrenceIsHit(values, x[n..], at - n, s);
    }
  }

  /** So no run of copied bytes contains a secret. */
  lemma {:induction false} NoSecretSurvivesInARun(values: seq<Bytes>, x: Bytes, from: nat, to: nat, at: nat, s: Bytes)
    requires from <= at && at + |s| <= to <= |x|
    requires forall k | from <= k < to :: !Hidden(values, x)[k]
    requires s in values && s != []
    ensures x[at..at + |s|] != s
  {
    if x[at..at + |s|] == s {
      assert s <= x[at..];
      EveryOccurrenceIsHit(values, x, at, s);
    }
  }

  predicate Shares(mask: Bytes, s: Bytes)
  {
    exists b :: b in mask && b in s
  }

  /** The mask is a visible token made of bytes no secret uses. */
  ghost predicate Foreign(mask: Bytes, values: seq<Bytes>)
  {
    mask != [] && forall s | s in values :: !Shares(mask, s)
  }

  /** Text free of mask bytes at the head of the output was at the head of the stream. */
  lemma {:induction false} HeadWasCopied(values: seq<Bytes>, mask: Bytes, x: Bytes, w: Bytes)
    requires mask != [] && !Shares(mask, w)
    requires w <= Redact(values, mask, x)
    ensures w <= x
    decreases |w|
  {
    if w != [] {
      assert w[0] == Shown(values, mask, x)[0];
      assert w[0] in w && mask[0] in mask;
      assert Longest(values, x) == 0;
      assert Redact(values, mask, x)[1..] == Redact(values, mask, x[1..]);
      HeadWasCopied(values, mask, x[1..], w[1..]);
    }
  }

  /** With a foreign mask the output contains no secret anywhere, not even one the
      replacement itself put together. */
  lemma {:induction false} OutputHoldsNoSecret(values: seq<Bytes>, mask: Bytes, x: Bytes, at: nat, s: Bytes)
    requires Foreign(mask, values)
    requires s in values && s != []
    requires at <= |Redact(values, mask, x)|
    ensures !(s <= Redact(values, mask, x)[at..])
    decreases |x|
  {
    if x != [] {
      var n, shown := Taken(values, x), Shown(values, mask, x);
      var rest := Redact(values, mask, x[n..]);
      if at >= |shown| {
        assert (shown + rest)[at..] == rest[at - |shown|..];
        OutputHoldsNoSecret(values, mask, x[n..], at - |shown|, s);
      } else if Longest(values, x) > 0 {
        assert (shown + rest)[at..][0] == mask[at];
        assert mask[at] in mask && s[0] in s;
      } else {
        assert (shown + rest)[at..] == shown + rest;
        LongestIsLongest(values, x);
        if s <= Redact(values, mask, x) {
          HeadWasCopied(values, mask, x, s);
        }
      }
    }
  }

  lemma {:induction false} CleanStreamIsUntouched(values: seq<Bytes>, mask: Bytes, x: Bytes)
    requires forall s, at | s in values && s != [] && 0 <= at <= |x| :: !(s <= x[at..])
    ensures Redact(values, mask, x) == x
    decreases |x|
  {
    if x != [] {
      LongestIsLongest(values, x);
      var n := Longest(values, x);
      assert x[0..] == x && x[..n] <= x;
      assert n == 0;
      forall s, at | s in values && s != [] && 0 <= at <= |x[1..]|
        ensures !(s <= x[1..][at..])
      {
        assert x[1..][at..] == x[at + 1..];
      }
      CleanStreamIsUntouched(values, mask, x[1..]);
    }
  }

  /** Masking masked output again changes nothing. */
  lemma {:induction false} MaskingIsIdempotent(values: seq<Bytes>, mask: Bytes, x: Bytes)
    requires Foreign(mask, values)
    ensures Redact(values, mask, Redact(values, mask, x)) == Redact(values, mask, x)
  {
    var out := Redact(values, mask, x);
    forall s, at | s in values && s != [] && 0 <= at <= |out|
      ensures !(s <= out[at..])
    {
      OutputHoldsNoSecret(values, mask, x, at, s);
    }
    CleanStreamIsUntouched(values, mask, out);
  }

  /** Both halves of `Foreign` are needed. An empty mask lets what surrounded one secret
      close up into another. */
  lemma {:induction false} AnEmptyMaskCanSplice()
    ensures Redact([[1, 2]], [], [1, 1, 2, 2]) == [1, 2]
  {
    var v: seq<Bytes> := [[1, 2]];
    assert v[1..] == [];
    assert [1, 1, 2, 2][1..] == [1, 2, 2] && [1, 2, 2][2..] == [2] && [2][1..] == [];
    assert !([1, 2] <= [1, 1, 2, 2]) by {
      assert [1, 1, 2, 2][1] != [1, 2][1];
    }
    assert [1, 2] <= [1, 2, 2];
    assert Redact(v, [], [2]) == [2];
    assert Redact(v, [], [1, 2, 2]) == [2];
  }

  /** A mask that shares a byte with a secret can complete it. */
  lemma {:induction false} ASharedMaskCanSplice()
    ensures Redact([[1, 2], [3]], [1], [3, 2]) == [1, 2]
  {
    var w: seq<Bytes> := [[1, 2], [3]];
    assert w[1..] == [[3]] && [[3]][1..] == [];
    assert [3, 2][1..] == [2];
    assert Redact(w, [1], [2]) == [2];
    assert [3] <= [3, 2];
    assert !([1, 2] <= [3, 2]) by {
      assert [1, 2][0] != [3, 2][0];
    }
  }

  // ---------------------------------------------------------------------
  // The masker itself
  // ---------------------------------------------------------------------

  function NonEmpty(values: seq<Bytes>): (r: seq<Bytes>)
    ensures forall s :: s in r <==> s in values && s != []
  {
    if values == [] then []
    else (if values[0] == [] then [] else [values[0]]) + NonEmpty(values[1..])
  }

  predicate LongestFirst(r: seq<Bytes>)
  {
    forall i, j | 0 <= i < j < |r| :: |r[i]| >= |r[j]|
  }

  /** Put `s` before the first value no longer than it. */
  function Insert(s: Bytes, r: seq<Bytes>): (q: seq<Bytes>)
    requires LongestFirst(r)
    ensures LongestFirst(q)
    ensures forall t :: t in q <==> t == s || t in r
    ensures q != [] && (q[0] == s || (r != [] && q[0] == r[0]))
  {
    if r == [] || |s| >= |r[0]| then [s] + r
    else [r[0]] + Insert(s, r[1..])
  }

  function SortLongestFirst(values: seq<Bytes>): (r: seq<Bytes>)
    ensures LongestFirst(r)
    ensures forall s :: s in r <==> s in values
  {
    if values == [] then [] else Insert(values[0], SortLongestFirst(values[1..]))
  }

  /** Drop a value that repeats the one just before it. */
  function DropRepeats(r: seq<Bytes>): (q: seq<Bytes>)
    requires LongestFirst(r)
    ensures LongestFirst(q)
    ensures forall s :: s in q <==> s in r
    ensures r != [] ==> q != [] && q[0] == r[0]
  {
    if |r| < 2 then r
    else if r[0] == r[1] then DropRepeats(r[1..])
    else [r[0]] + DropRepeats(r[1..])
  }

  /** The secrets a masker keeps of the values it is given. */
  function Kept(values: seq<Bytes>): seq<Bytes>
  {
    DropRepeats(SortLongestFirst(NonEmpty(values)))
  }

  /** They are exactly the non-empty values, longest first. */
  lemma {:induction false} KeptAreTheNonEmptyValues(values: seq<Bytes>)
    ensures LongestFirst(Kept(values))
    ensures forall s :: s in Kept(values) <==> s in values && s != []
  {
    var sorted := SortLongestFirst(NonEmpty(values));
    assert forall s :: s in Kept(values) <==> s in sorted;
  }

  class Masker {
    const secrets: seq<Bytes>
    const maxLen: nat
    const mask: Bytes
    var buf: Bytes
    /** The values the masker was built from. */
    ghost const values: seq<Bytes>

    ghost predicate Built()
    {
      secrets == Kept(values) && maxLen == if secrets == [] then 0 else |secrets[0]|
    }

    ghost predicate Valid()
      reads this
    {
      Built() && (buf == [] || Pending(values, buf))
    }

    constructor WithMask(values: seq<Bytes>, mask: Bytes)
      ensures Valid() && buf == []
      ensures this.values == values && this.mask == mask
    {
      var kept := DropRepeats(SortLongestFirst(NonEmpty(values)));
      this.values := values;
      this.secrets := kept;
      this.maxLen := if kept == [] then 0 else |kept[0]|;
      this.mask := mask;
      this.buf := [];
    }

    predicate IsPassthrough()
    {
      secrets == []
    }

    /** The first kept secret `slice` starts with, by its length. */
    method MatchAt(slice: Bytes) returns (r: Option<nat>)
      requires Built()
      ensures r == if Longest(values, slice) == 0 then None else Some(Longest(values, slice))
    {
      var k := 0;
      while k < |secrets|
        invariant 0 <= k <= |secrets|
        invariant forall j | 0 <= j < k :: !(secrets[j] <= slice)
      {
        if secrets[k] <= slice {
          FirstMatchIsLongest(slice, k);
          return Some(|secrets[k]|);
        }
        k := k + 1;
      }
      FirstMatchIsLongest(slice, k);
      return None;
    }

    lemma {:induction false} FirstMatchIsLongest(slice: Bytes, k: nat)
      requires Built() && k <= |secrets|
      requires forall j | 0 <= j < k :: !(secrets[j] <= slice)
      ensures k == |secrets| ==> Longest(values, slice) == 0
      ensures k < |secrets| && secrets[k] <= slice ==> Longest(values, slice) == |secrets[k]| > 0
    {
      hide Longest, Kept;
      KeptAreTheNonEmptyValues(values);
      LongestIsLongest(values, slice);
      var best := slice[..Longest(values, slice)];
      assert best != [] ==> best in secrets;
      assert k < |secrets| ==> secrets[k] in secrets;
    }

    method IsSecretPrefix(slice: Bytes) returns (b: bool)
      requires Built()
      ensures b == Pending(values, slice)
    {
      KeptAreTheNonEmptyValues(values);
      b := exists s :: s in secrets && |s| > |slice| && slice <= s;
      assert forall s | s in secrets :: (|s| > |slice| && slice <= s) == (slice < s);
    }

    /** The length guard in front of the prefix test never changes its answer. */
    lemma {:induction false} LengthGuardIsImplied(x: Bytes)
      requires Built()
      ensures Pending(values, x) ==> |x| < maxLen
    {
      KeptAreTheNonEmptyValues(values);
      assert forall s | s in values && x < s :: s in secrets;
    }

    /** The guarded hold-back test of the scan loop. */
    method HoldsBack(rest: Bytes, eof: bool) returns (held: bool)
      requires Built()
      ensures held <==> !eof && Pending(values, rest)
    {
      LengthGuardIsImplied(rest);
      held := false;
      if !eof && |rest| < maxLen {
        held := IsSecretPrefix(rest);
      }
    }

    /** What a scan that has emitted `out` and has `rest` to go will come to. */
    ghost function Outcome(eof: bool, out: Bytes, rest: Bytes): Fed
    {
      if eof then Fed(out + Redact(values, mask, rest), []) else After(out, Feed(values, mask, rest))
    }

    lemma {:induction false} OneDecision(eof: bool, out: Bytes, rest: Bytes)
      requires rest != [] && (eof || !Pending(values, rest))
      ensures Outcome(eof, out, rest) ==
              Outcome(eof, out + Shown(values, mask, rest), rest[Taken(values, rest)..])
    {
      var shown, next := Shown(values, mask, rest), rest[Taken(values, rest)..];
      assert out + (shown + Redact(values, mask, next)) == (out + shown) + Redact(values, mask, next);
      AfterAfter(out, shown, Feed(values, mask, next));
    }

    /** One turn of the scan: `i` moves past one decision, `out` gains what it shows. */
    lemma {:induction false} ScanTurn(eof: bool, out: Bytes, taken: Bytes, i: nat)
      requires i < |taken| && (eof || !Pending(values, taken[i..]))
      ensures var rest := taken[i..];
              && i + Taken(values, rest) <= |taken|
              && Outcome(eof, out + Shown(values, mask, rest), taken[i + Taken(values, rest)..])
                 == Outcome(eof, out, rest)
    {
      var rest := taken[i..];
      OneDecision(eof, out, rest);
      assert rest[Taken(values, rest)..] == taken[i + Taken(values, rest)..];
    }

    /** A scan that stops with `out` emitted and `rest` unread is at its outcome. */
    lemma {:induction false} ScanStops(eof: bool, out: Bytes, rest: Bytes, taken: Bytes)
      requires Outcome(eof, out, rest) == Outcome(eof, [], taken)
      requires rest == [] || (!eof && Pending(values, rest))
      ensures eof ==> out == Redact(values, mask, taken) && rest == []
      ensures !eof ==> Fed(out, rest) == Feed(values, mask, taken)
    {
      assert out + [] == out && [] + Redact(values, mask, taken) == Redact(values, mask, taken);
      assert [] + Feed(values, mask, taken).out == Feed(values, mask, taken).out;
    }

    method Scan(eof: bool) returns (out: Bytes)
      requires Built()
      modifies this
      ensures eof ==> out == Redact(values, mask, old(buf)) && buf == []
      ensures !eof ==> Fed(out, buf) == Feed(values, mask, old(buf))
    {
      hide Feed, Redact, Pending, Outcome, Longest;
      var taken := buf;
      buf := [];
      out := [];
      var i := 0;
      assert taken[0..] == taken;
      while i < |taken|
        invariant 0 <= i <= |taken|
        invariant Outcome(eof, out, taken[i..]) == Outcome(eof, [], taken)
      {
        var rest := taken[i..];
        var held := HoldsBack(rest, eof);
        if held {
          break;
        }
        ScanTurn(eof, out, taken, i);
        var m := MatchAt(rest);
        match m {
          case Some(len) =>
            out := out + mask;
            i := i + len;
          case None =>
            out := out + [rest[0]];
            i := i + 1;
        }
      }
      buf := taken[i..];
      ScanStops(eof, out, buf, taken);
    }

    method Push(data: Bytes) returns (out: Bytes)
      requires Valid()
      modifies this
      ensures Valid()
      ensures Fed(out, buf) == Feed(values, mask, old(buf) + data)
      ensures buf == [] || (|buf| < maxLen && Pending(values, buf))
      ensures buf != [] ==> exists t: Bytes :: Longest(values, buf + t) > |buf|
    {
      ghost var before := buf;
      if IsPassthrough() {
        out := data;
        NothingToRedact(before);
        NothingToRedact(before + data);
        assert before + data == data;
      } else {
        buf := buf + data;
        out := Scan(false);
      }
      CarryIsPending(values, mask, before + data);
      LengthGuardIsImplied(buf);
      HeldExactlyWhenUndecided(values, buf);
    }

    method Finish() returns (out: Bytes)
      requires Valid()
      modifies this
      ensures Valid() && buf == []
      ensures out == Redact(values, mask, old(buf))
    {
      if IsPassthrough() {
        NothingToRedact(buf);
        out := [];
      } else {
        out := Scan(true);
      }
    }

    lemma {:induction false} NothingToRedact(x: Bytes)
      requires Built() && secrets == []
      ensures Feed(values, mask, x) == Fed(x, []) && !Pending(values, x)
      decreases |x|
    {
      hide Longest, Kept;
      NothingMatches(x);
      if x != [] {
        NothingToRedact(x[1..]);
        assert [x[0]] + x[1..] == x;
      }
    }

    lemma {:induction false} NothingMatches(x: Bytes)
      requires Built() && secrets == []
      ensures Longest(values, x) == 0 && !Pending(values, x)
    {
      hide Longest, Kept;
      KeptAreTheNonEmptyValues(values);
      LongestIsLongest(values, x);
    }

    /** One push of a list of pushes. */
    lemma {:induction false} PushTurn(out: Bytes, carry: Bytes, chunks: seq<Bytes>, k: nat)
      requires k < |chunks|
      ensures var first := Feed(values, mask, carry + chunks[k]);
              After(out + first.out, FeedAll(values, mask, first.carry, chunks[k + 1..]))
              == After(out, FeedAll(values, mask, carry, chunks[k..]))
    {
      var first := Feed(values, mask, carry + chunks[k]);
      assert chunks[k..][1..] == chunks[k + 1..];
      AfterAfter(out, first.out, FeedAll(values, mask, first.carry, chunks[k + 1..]));
    }

    /** Push every chunk, then finish: the loop every caller of the masker runs. */
    method MaskAll(chunks: seq<Bytes>) returns (out: Bytes)
      requires Valid() && buf == []
      modifies this
      ensures Valid() && buf == []
      ensures out == Redact(values, mask, Flatten(chunks))
    {
      hide Feed, Redact, Pending, Longest;
      out := [];
      var k := 0;
      ghost var all := FeedAll(values, mask, [], chunks);
      assert chunks[0..] == chunks && [] + all.out == all.out;
      while k < |chunks|
        invariant 0 <= k <= |chunks|
        invariant Valid()
        invariant all == After(out, FeedAll(values, mask, buf, chunks[k..]))
      {
        PushTurn(out, buf, chunks, k);
        var more := Push(chunks[k]);
        out := out + more;
        k := k + 1;
      }
      assert out + [] == out;
      ChunkIndependence(values, mask, chunks);
      var last := Finish();
      out := out + last;
    }
  }
}
