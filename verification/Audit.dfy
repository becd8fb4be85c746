/** The audit log of packages/secreq/src/audit.rs: rows appended by any number of processes,
    and the tolerant reader that recovers them. */
module Audit {
  import opened Common

  const NEWLINE: Byte := 10

  /** `u8::is_ascii_whitespace`. */
  predicate AsciiSpace(b: Byte)
  {
    b == 32 || b == 9 || b == 10 || b == 12 || b == 13
  }

  /** The whitespace JSON allows between values. */
  predicate JsonSpace(b: Byte)
  {
    b == 32 || b == 9 || b == 10 || b == 13
  }

  /** An entry's JSON, and one attempt to decode an entry at the front of some bytes: the entry
      and how many bytes it took, or None for an error. */
  datatype Codec<!E> = Codec(ser: E -> Bytes, parse: Bytes -> Option<(E, nat)>)
  {
    /** `parse` at `rest`, as a step that takes something. */
    function Next(rest: Bytes): (r: Option<(E, nat)>)
      ensures r.Some? ==> 0 < r.value.1 <= |rest|
    {
      var r := parse(rest);
      if r.Some? && 0 < r.value.1 <= |rest| then r else None
    }
  }

  /** What is taken of serde_json: a serialised entry is one line, does not start with
      whitespace, and decodes to itself whatever follows it. */
  ghost predicate Lawful<E(!new)>(c: Codec<E>)
  {
    && (forall e :: c.ser(e) != [] && NEWLINE !in c.ser(e) && !AsciiSpace(c.ser(e)[0]))
    && forall e, rest :: c.Next(c.ser(e) + rest) == Some((e, |c.ser(e)|))
  }

  // ---------------------------------------------------------------------
  // What a file holds
  // ---------------------------------------------------------------------

  datatype Read<E> = Read(entries: seq<E>, malformed: nat) {
    function Then(next: Read<E>): Read<E> { Read(entries + next.entries, malformed + next.malformed) }
  }

  function SkipSpace(s: Bytes): (r: Bytes)
    ensures |r| <= |s| && (r != [] ==> !JsonSpace(r[0]))
  {
    if s != [] && JsonSpace(s[0]) then SkipSpace(s[1..]) else s
  }

  /** The objects of one physical line, up to the first bytes that are not one. */
  function DecodeLine<E>(c: Codec<E>, line: Bytes): Read<E>
    decreases |line|
  {
    var rest := SkipSpace(line);
    if rest == [] then Read([], 0)
    else match c.Next(rest)
      case None => Read([], 1)
      case Some((e, n)) => Read([e], 0).Then(DecodeLine(c, rest[n..]))
  }

  predicate Blank(line: Bytes)
  {
    forall k | 0 <= k < |line| :: AsciiSpace(line[k])
  }

  /** The length of the first physical line, its newline included. */
  function LineLength(s: Bytes): (n: nat)
    ensures n <= |s| && (s != [] ==> n > 0)
    ensures forall k | 0 <= k < n - 1 :: s[k] != NEWLINE
    ensures n < |s| ==> n > 0 && s[n - 1] == NEWLINE
  {
    if s == [] then 0
    else if s[0] == NEWLINE then 1
    else
      assert forall k | 0 <= k < |s| - 1 :: s[1..][k] == s[k + 1];
      1 + LineLength(s[1..])
  }

  function VisitLine<E>(c: Codec<E>, line: Bytes): Read<E>
  {
    if Blank(line) then Read([], 0) else DecodeLine(c, line)
  }

  function Visit<E>(c: Codec<E>, s: Bytes): Read<E>
    decreases |s|
  {
    if s == [] then Read([], 0)
    else VisitLine(c, s[..LineLength(s)]).Then(Visit(c, s[LineLength(s)..]))
  }

  // ---------------------------------------------------------------------
  // Appends
  // ---------------------------------------------------------------------

  /** One append: a record is written as its object and then, apart, its newline. */
  datatype Append<E> = Body(writer: nat, entry: E) | Newline(writer: nat)

  function Appended<E>(c: Codec<E>, op: Append<E>): Bytes
  {
    match op
    case Body(_, e) => c.ser(e)
    case Newline(_) => [NEWLINE]
  }

  /** The file any interleaving of appends leaves. */
  function File<E>(c: Codec<E>, ops: seq<Append<E>>): Bytes
  {
    if ops == [] then [] else Appended(c, ops[0]) + File(c, ops[1..])
  }

  /** The entries appended, in the order they were. */
  function Bodies<E>(ops: seq<Append<E>>): seq<E>
  {
    if ops == [] then []
    else if ops[0].Body? then [ops[0].entry] + Bodies(ops[1..]) else Bodies(ops[1..])
  }

  /** Objects run together on one line. */
  function Sers<E>(c: Codec<E>, es: seq<E>): Bytes
  {
    if es == [] then [] else Sers(c, es[..|es| - 1]) + c.ser(es[|es| - 1])
  }

  // ---------------------------------------------------------------------
  // Lines
  // ---------------------------------------------------------------------

  predicate EndsLine(s: Bytes)
  {
    s == [] || s[|s| - 1] == NEWLINE
  }

  lemma {:induction false} LineLengthIs(s: Bytes, n: nat)
    requires 0 < n <= |s| && (forall k | 0 <= k < n - 1 :: s[k] != NEWLINE)
    requires n == |s| || s[n - 1] == NEWLINE
    ensures LineLength(s) == n
  {
    if n > 1 {
      LineLengthIs(s[1..], n - 1);
    }
  }

  /** Reading resumes at every line end: what precedes one and what follows it are read apart. */
  lemma {:induction false} LinesAreReadApart<E>(c: Codec<E>, a: Bytes, b: Bytes)
    requires EndsLine(a)
    ensures Visit(c, a + b) == Visit(c, a).Then(Visit(c, b))
    decreases |a|
  {
    hide VisitLine;
    if a == [] {
      assert a + b == b;
      assert Read([], 0).Then(Visit(c, b)) == Visit(c, b);
    } else {
      var n := LineLength(a);
      assert forall k | 0 <= k < |a| :: (a + b)[k] == a[k];
      LineLengthIs(a + b, n);
      assert (a + b)[..n] == a[..n] && (a + b)[n..] == a[n..] + b;
      LinesAreReadApart(c, a[n..], b);
      ThenAssoc(VisitLine(c, a[..n]), Visit(c, a[n..]), Visit(c, b));
    }
  }

  lemma {:induction false} ThenAssoc<E>(x: Read<E>, y: Read<E>, z: Read<E>)
    ensures x.Then(y).Then(z) == x.Then(y.Then(z))
  {
    assert x.entries + y.entries + z.entries == x.entries + (y.entries + z.entries);
  }

  function Newlines(s: Bytes): nat
  {
    if s == [] then 0 else Newlines(s[1..]) + if s[0] == NEWLINE then 1 else 0
  }

  lemma {:induction false} NewlinesAppend(a: Bytes, b: Bytes)
    ensures Newlines(a + b) == Newlines(a) + Newlines(b)
  {
    if a == [] {
      assert a + b == b;
    } else {
      assert (a + b)[1..] == a[1..] + b;
      NewlinesAppend(a[1..], b);
    }
  }

  lemma {:induction false} NoNewlines(s: Bytes)
    requires NEWLINE !in s
    ensures Newlines(s) == 0
  {
    if s != [] {
      NoNewlines(s[1..]);
    }
  }

  /** The line is entries to its end. */
  predicate AllEntries<E>(c: Codec<E>, line: Bytes)
    decreases |line|
  {
    var rest := SkipSpace(line);
    rest == [] || (c.Next(rest).Some? && AllEntries(c, rest[c.Next(rest).value.1..]))
  }

  /** A physical line counts as malformed exactly when it is neither blank nor entries to its
      end, and then once. */
  lemma {:induction false} LineCountsExactly<E>(c: Codec<E>, line: Bytes)
    ensures VisitLine(c, line).malformed == if Blank(line) || AllEntries(c, line) then 0 else 1
  {
    DecodedCountsExactly(c, line);
  }

  lemma {:induction false} DecodedCountsExactly<E>(c: Codec<E>, line: Bytes)
    ensures DecodeLine(c, line).malformed == if AllEntries(c, line) then 0 else 1
    decreases |line|
  {
    var rest := SkipSpace(line);
    if rest != [] && c.Next(rest).Some? {
      DecodedCountsExactly(c, rest[c.Next(rest).value.1..]);
    }
  }

  /** How many physical lines are neither. */
  function BadLines<E>(c: Codec<E>, s: Bytes): nat
    decreases |s|
  {
    if s == [] then 0
    else
      var n := LineLength(s);
      (if Blank(s[..n]) || AllEntries(c, s[..n]) then 0 else 1) + BadLines(c, s[n..])
  }

  /** The malformed count of a file is the number of its lines that are neither. */
  lemma {:induction false} MalformedCountsBadLines<E>(c: Codec<E>, s: Bytes)
    ensures Visit(c, s).malformed == BadLines(c, s)
    decreases |s|
  {
    hide VisitLine, AllEntries, Blank;
    if s != [] {
      LineCountsExactly(c, s[..LineLength(s)]);
      MalformedCountsBadLines(c, s[LineLength(s)..]);
    }
  }

  lemma {:induction false} MalformedPerLine<E>(c: Codec<E>, s: Bytes)
    ensures Visit(c, s).malformed <= Newlines(s) + if EndsLine(s) then 0 else 1
    decreases |s|
  {
    hide VisitLine, Newlines;
    if s != [] {
      var n := LineLength(s);
      LineCountsExactly(c, s[..n]);
      MalformedPerLine(c, s[n..]);
      assert s == s[..n] + s[n..];
      NewlinesAppend(s[..n], s[n..]);
      FirstLineHasOne(s);
    } else {
      NoNewlines(s);
    }
  }

  lemma {:induction false} FirstLineHasOne(s: Bytes)
    requires s != []
    ensures Newlines(s[..LineLength(s)]) == if s[LineLength(s) - 1] == NEWLINE then 1 else 0
  {
    var n := LineLength(s);
    assert s[..n] == s[..n - 1] + [s[n - 1]];
    NewlinesAppend(s[..n - 1], [s[n - 1]]);
    NoNewlines(s[..n - 1]);
    assert [s[n - 1]][1..] == [];
  }

  // ---------------------------------------------------------------------
  // Recovery
  // ---------------------------------------------------------------------

  lemma {:induction false} SersAreOneLine<E(!new)>(c: Codec<E>, es: seq<E>)
    requires Lawful(c)
    ensures NEWLINE !in Sers(c, es)
    ensures es == [] <==> Sers(c, es) == []
    ensures es != [] ==> !AsciiSpace(Sers(c, es)[0])
  {
    if |es| > 1 {
      SersAreOneLine(c, es[..|es| - 1]);
    } else if |es| == 1 {
      assert Sers(c, es) == [] + c.ser(es[0]);
    }
  }

  lemma {:induction false} SersHead<E>(c: Codec<E>, es: seq<E>)
    requires es != []
    ensures Sers(c, es) == c.ser(es[0]) + Sers(c, es[1..])
  {
    var n := |es| - 1;
    if n == 0 {
      assert Sers(c, es[1..]) == [];
    } else {
      SersHead(c, es[..n]);
      assert es[..n][1..] == es[1..][..n - 1];
    }
  }

  lemma {:induction false} LawfulAt<E(!new)>(c: Codec<E>, e: E, rest: Bytes)
    requires Lawful(c)
    ensures c.ser(e) != [] && NEWLINE !in c.ser(e) && !AsciiSpace(c.ser(e)[0])
    ensures c.Next(c.ser(e) + rest) == Some((e, |c.ser(e)|))
  {
  }

  lemma {:induction false} FirstObjectDecodes<E(!new)>(c: Codec<E>, e: E, rest: Bytes)
    requires Lawful(c)
    ensures DecodeLine(c, c.ser(e) + rest) == Read([e], 0).Then(DecodeLine(c, rest))
  {
    LawfulAt(c, e, rest);
    hide Lawful;
    var line := c.ser(e) + rest;
    assert line[0] == c.ser(e)[0];
    assert SkipSpace(line) == line && line[|c.ser(e)|..] == rest;
  }

  /** Objects run together decode one after another, and then whatever follows them. */
  lemma {:induction false} ObjectsDecodeInTurn<E(!new)>(c: Codec<E>, es: seq<E>, tail: Bytes)
    requires Lawful(c)
    ensures DecodeLine(c, Sers(c, es) + tail) == Read(es, 0).Then(DecodeLine(c, tail))
    decreases |es|
  {
    hide Lawful, DecodeLine;
    if es == [] {
      assert Sers(c, es) + tail == tail;
      assert Read(es, 0).Then(DecodeLine(c, tail)) == DecodeLine(c, tail);
    } else {
      var first, more := c.ser(es[0]), Sers(c, es[1..]) + tail;
      SersHead(c, es);
      assert Sers(c, es) + tail == first + more;
      FirstObjectDecodes(c, es[0], more);
      ObjectsDecodeInTurn(c, es[1..], tail);
      ThenAssoc(Read([es[0]], 0), Read(es[1..], 0), DecodeLine(c, tail));
      assert [es[0]] + es[1..] == es;
    }
  }

  /** Bytes that hold no line end but their last are visited as one line. */
  lemma {:induction false} OneLine<E>(c: Codec<E>, line: Bytes)
    requires forall k | 0 <= k < |line| - 1 :: line[k] != NEWLINE
    ensures Visit(c, line) == VisitLine(c, line)
  {
    hide DecodeLine;
    if line != [] {
      LineLengthIs(line, |line|);
      assert line[..|line|] == line && line[|line|..] == [];
      var read := VisitLine(c, line);
      assert read.entries + [] == read.entries;
    }
  }

  lemma {:induction false} NothingToDecode<E>(c: Codec<E>, end: Bytes)
    requires end == [] || end == [NEWLINE]
    ensures DecodeLine(c, end) == Read([], 0)
  {
    assert end != [] ==> end[1..] == [];
  }

  /** A line of objects, its newline there or not, is read whole. */
  lemma {:induction false} LineOfObjects<E(!new)>(c: Codec<E>, es: seq<E>, end: Bytes)
    requires Lawful(c) && (end == [] || end == [NEWLINE])
    ensures Visit(c, Sers(c, es) + end) == Read(es, 0)
  {
    hide Lawful, Sers, Visit, DecodeLine;
    var line := Sers(c, es) + end;
    SersAreOneLine(c, es);
    OneLine(c, line);
    ObjectsDecodeInTurn(c, es, end);
    NothingToDecode(c, end);
    assert Read(es, 0).Then(Read([], 0)) == Read(es, 0);
    assert es != [] ==> line[0] == Sers(c, es)[0];
  }

  lemma {:induction false} RecoverFrom<E(!new)>(c: Codec<E>, pre: seq<E>, ops: seq<Append<E>>)
    requires Lawful(c)
    ensures Visit(c, Sers(c, pre) + File(c, ops)) == Read(pre + Bodies(ops), 0)
    decreases |ops|
  {
    hide Visit, Lawful;
    if ops == [] {
      LineOfObjects(c, pre, []);
      assert pre + [] == pre;
    } else if ops[0].Body? {
      var e := ops[0].entry;
      assert (pre + [e])[..|pre|] == pre;
      assert Sers(c, pre) + (c.ser(e) + File(c, ops[1..])) == Sers(c, pre + [e]) + File(c, ops[1..]);
      RecoverFrom(c, pre + [e], ops[1..]);
      assert pre + [e] + Bodies(ops[1..]) == pre + ([e] + Bodies(ops[1..]));
    } else {
      var line, rest := Sers(c, pre) + [NEWLINE], File(c, ops[1..]);
      assert Sers(c, pre) + ([NEWLINE] + rest) == line + rest;
      LinesAreReadApart(c, line, rest);
      LineOfObjects(c, pre, [NEWLINE]);
      RecoverFrom(c, [], ops[1..]);
      assert Sers(c, []) + rest == rest && [] + Bodies(ops[1..]) == Bodies(ops[1..]);
    }
  }

  /** However the appends of any number of writers interleave, and wherever one of them died
      between its object and its newline, the reader returns exactly the appended entries, in
      the order they were appended, and counts nothing malformed. */
  lemma {:induction false} EveryInterleavingIsRecovered<E(!new)>(c: Codec<E>, ops: seq<Append<E>>)
    requires Lawful(c)
    ensures Visit(c, File(c, ops)) == Read(Bodies(ops), 0)
  {
    hide Visit, File, Bodies, Lawful;
    RecoverFrom(c, [], ops);
    assert Sers(c, []) == [];
    assert Sers(c, []) + File(c, ops) == File(c, ops) && [] + Bodies(ops) == Bodies(ops);
  }

  // ---------------------------------------------------------------------
  // Corruption
  // ---------------------------------------------------------------------

  lemma {:induction false} LineTakesIn(a: Bytes, x: Bytes)
    requires NEWLINE !in a
    ensures LineLength(a + x) >= |a|
  {
    if |a| > 1 {
      LineTakesIn(a[1..], x);
      assert (a + x)[1..] == a[1..] + x && (a + x)[0] == a[0];
    }
  }

  lemma {:induction false} ObjectsBeforeSurvive<E(!new)>(c: Codec<E>, pre: seq<E>, x: Bytes)
    requires Lawful(c)
    ensures pre <= Visit(c, Sers(c, pre) + x).entries
  {
    hide Lawful, Sers, DecodeLine;
    var s := Sers(c, pre) + x;
    if pre != [] {
      SersAreOneLine(c, pre);
      var n := LineLength(s);
      LineTakesIn(Sers(c, pre), x);
      var tail := s[..n][|Sers(c, pre)|..];
      assert s[..n] == Sers(c, pre) + tail && s[0] == Sers(c, pre)[0] == s[..n][0];
      ObjectsDecodeInTurn(c, pre, tail);
    }
  }

  lemma {:induction false} ObjectsAddNoLines<E(!new)>(c: Codec<E>, pre: seq<E>, x: Bytes)
    requires Lawful(c)
    ensures Newlines(Sers(c, pre) + x) == Newlines(x)
  {
    hide Lawful;
    SersAreOneLine(c, pre);
    NewlinesAppend(Sers(c, pre), x);
    NoNewlines(Sers(c, pre));
  }

  lemma {:induction false} AppendsBeforeSurvive<E(!new)>(c: Codec<E>, pre: seq<E>, ops: seq<Append<E>>, x: Bytes)
    requires Lawful(c)
    ensures var r := Visit(c, Sers(c, pre) + File(c, ops) + x);
            && pre + Bodies(ops) <= r.entries
            && r.malformed <= Newlines(x) + if x != [] && EndsLine(x) then 0 else 1
    decreases |ops|
  {
    hide Visit, Lawful, Newlines;
    if ops == [] {
      assert Sers(c, pre) + [] + x == Sers(c, pre) + x && pre + [] == pre;
      ObjectsBeforeSurvive(c, pre, x);
      MalformedPerLine(c, Sers(c, pre) + x);
      ObjectsAddNoLines(c, pre, x);
    } else if ops[0].Body? {
      var e := ops[0].entry;
      assert (pre + [e])[..|pre|] == pre;
      assert Sers(c, pre) + (c.ser(e) + File(c, ops[1..])) == Sers(c, pre + [e]) + File(c, ops[1..]);
      AppendsBeforeSurvive(c, pre + [e], ops[1..], x);
      assert pre + [e] + Bodies(ops[1..]) == pre + ([e] + Bodies(ops[1..]));
    } else {
      var line, rest := Sers(c, pre) + [NEWLINE], File(c, ops[1..]) + x;
      assert Sers(c, pre) + ([NEWLINE] + File(c, ops[1..])) + x == line + rest;
      LinesAreReadApart(c, line, rest);
      LineOfObjects(c, pre, [NEWLINE]);
      AppendsBeforeSurvive(c, [], ops[1..], x);
      assert Sers(c, []) + File(c, ops[1..]) + x == rest && [] + Bodies(ops[1..]) == Bodies(ops[1..]);
    }
  }

  /** The appends after the first newline. */
  function AfterNewline<E>(ops: seq<Append<E>>): seq<Append<E>>
  {
    if ops == [] then [] else if ops[0].Newline? then ops[1..] else AfterNewline(ops[1..])
  }

  /** What the appends put on the line they start on. */
  function OwnLine<E>(c: Codec<E>, ops: seq<Append<E>>): Bytes
  {
    if ops == [] then []
    else if ops[0].Newline? then [NEWLINE] else c.ser(ops[0].entry) + OwnLine(c, ops[1..])
  }

  predicate HasNewline<E>(ops: seq<Append<E>>)
  {
    exists k | 0 <= k < |ops| :: ops[k].Newline?
  }

  lemma {:induction false} FileIsOwnLineFirst<E(!new)>(c: Codec<E>, ops: seq<Append<E>>)
    requires Lawful(c)
    ensures File(c, ops) == OwnLine(c, ops) + File(c, AfterNewline(ops))
    ensures Newlines(OwnLine(c, ops)) == if HasNewline(ops) then 1 else 0
    ensures HasNewline(ops) ==> OwnLine(c, ops) != [] && EndsLine(OwnLine(c, ops))
    ensures !HasNewline(ops) ==> AfterNewline(ops) == []
  {
    hide Lawful;
    if ops == [] {
    } else if ops[0].Newline? {
      assert [NEWLINE][1..] == [];
      assert Newlines([NEWLINE]) == 1;
    } else {
      var e := ops[0].entry;
      FileIsOwnLineFirst(c, ops[1..]);
      LawfulAt(c, e, []);
      NoNewlines(c.ser(e));
      NewlinesAppend(c.ser(e), OwnLine(c, ops[1..]));
      assert c.ser(e) + (OwnLine(c, ops[1..]) + File(c, AfterNewline(ops))) ==
             OwnLine(c, ops) + File(c, AfterNewline(ops));
      assert HasNewline(ops) == HasNewline(ops[1..]) by {
        assert forall k | 0 <= k < |ops| - 1 :: ops[1..][k] == ops[k + 1];
        assert forall k | 1 <= k < |ops| :: ops[k] == ops[1..][k - 1];
      }
    }
  }

  /** Corrupt bytes anywhere in the log cost at most the rest of the physical lines they lie on:
      every entry appended before them is read, every entry appended after the next newline is
      read, and each line they spoil is counted at most once. */
  lemma {:induction false} CorruptionCostsItsOwnLines<E(!new)>(c: Codec<E>, before: seq<Append<E>>, junk: Bytes,
                                                              after: seq<Append<E>>) returns (mid: seq<E>)
    requires Lawful(c)
    ensures var r := Visit(c, File(c, before) + junk + File(c, after));
            && r.entries == Bodies(before) + mid + Bodies(AfterNewline(after))
            && r.malformed <= Newlines(junk) + 1
  {
    hide Lawful, Visit, File, Newlines, OwnLine;
    var spoiled, rest := junk + OwnLine(c, after), File(c, AfterNewline(after));
    FileIsOwnLineFirst(c, after);
    NewlinesAppend(junk, OwnLine(c, after));
    assert File(c, before) + junk + File(c, after) == File(c, before) + spoiled + rest;
    AppendsBeforeSurvive(c, [], before, spoiled);
    assert Sers(c, []) + File(c, before) + spoiled == File(c, before) + spoiled;
    assert [] + Bodies(before) == Bodies(before);
    EveryInterleavingIsRecovered(c, AfterNewline(after));
    var r := Visit(c, File(c, before) + spoiled);
    mid := r.entries[|Bodies(before)|..];
    assert r.entries == Bodies(before) + mid;
    if HasNewline(after) {
      LinesAreReadApart(c, File(c, before) + spoiled, rest);
    } else {
      EveryInterleavingIsRecovered(c, []);
      NothingAfter(c, after);
      assert rest == [];
      assert File(c, before) + spoiled + rest == File(c, before) + spoiled;
      assert r.entries == Bodies(before) + mid + [];
    }
  }

  lemma {:induction false} NothingAfter<E>(c: Codec<E>, ops: seq<Append<E>>)
    requires AfterNewline(ops) == []
    ensures File(c, AfterNewline(ops)) == [] && Bodies(AfterNewline(ops)) == []
  {
  }

  // ---------------------------------------------------------------------
  // Writing and reading
  // ---------------------------------------------------------------------

  class AuditLog<E(!new)> {
    const c: Codec<E>
    var bytes: Bytes

    constructor (c: Codec<E>)
      ensures this.c == c && bytes == []
    {
      this.c := c;
      bytes := [];
    }

    /** One record, as two appends. */
    method AppendRecord(entry: E, ghost writer: nat)
      modifies this
      ensures bytes == old(bytes) + File(c, [Body(writer, entry), Newline(writer)])
    {
      ghost var ops := [Body(writer, entry), Newline(writer)];
      bytes := bytes + c.ser(entry);
      bytes := bytes + [NEWLINE];
      assert ops[1..] == [Newline(writer)] && ops[1..][1..] == [];
      assert File(c, ops[1..]) == [NEWLINE] + [];
      assert File(c, ops) == c.ser(entry) + [NEWLINE];
    }
  }

  /** The last entries, as many as were asked for. */
  function Kept<E>(limit: Option<nat>, all: seq<E>): seq<E>
  {
    if limit.Some? && |all| > limit.value then all[|all| - limit.value..] else all
  }

  /** A visitor: what a closure has captured, and what it makes of one more entry; None is an
      error, which stops the visit. */
  class Visitor<S, E> {
    const step: (S, E) -> Option<S>
    var state: S

    constructor (step: (S, E) -> Option<S>, state: S)
      ensures this.step == step && this.state == state
    {
      this.step, this.state := step, state;
    }

    method Call(entry: E) returns (ok: bool)
      modifies this
      ensures step(old(state), entry) == if ok then Some(state) else None
      ensures !ok ==> state == old(state)
    {
      var next := step(state, entry);
      ok := next.Some?;
      if ok {
        state := next.value;
      }
    }
  }

  /** What a visitor has become after these entries, if it took them all. */
  function Visited<S, E>(step: (S, E) -> Option<S>, s: S, es: seq<E>): Option<S>
  {
    if es == [] then Some(s)
    else match step(s, es[0]) case None => None case Some(t) => Visited(step, t, es[1..])
  }

  /** The visitor took all before one entry, is left in state `t` by them, and refused that one. */
  ghost predicate Refused<S, E>(step: (S, E) -> Option<S>, s: S, es: seq<E>, t: S)
  {
    exists n | 0 <= n < |es| :: Visited(step, s, es[..n]) == Some(t) && step(t, es[n]) == None
  }

  lemma {:induction false} VisitedMore<S, E>(step: (S, E) -> Option<S>, s: S, a: seq<E>, b: seq<E>)
    ensures Visited(step, s, a + b) ==
            match Visited(step, s, a) case None => None case Some(t) => Visited(step, t, b)
    decreases |a|
  {
    if a == [] {
      assert a + b == b;
    } else {
      assert (a + b)[1..] == a[1..] + b;
      var next := step(s, a[0]);
      if next.Some? {
        VisitedMore(step, next.value, a[1..], b);
      }
    }
  }

  lemma {:induction false} RefusedMore<S, E>(step: (S, E) -> Option<S>, s: S, a: seq<E>, mid: S, b: seq<E>, c: seq<E>,
                                             t: S)
    requires Visited(step, s, a) == Some(mid) && Refused(step, mid, b, t)
    ensures Refused(step, s, a + b + c, t)
  {
    var n :| 0 <= n < |b| && Visited(step, mid, b[..n]) == Some(t) && step(t, b[n]) == None;
    VisitedMore(step, s, a, b[..n]);
    assert (a + b + c)[..|a| + n] == a + b[..n];
  }

  /** A visitor that refuses has not been through all the entries. */
  lemma {:induction false} RefusedIsNotVisited<S, E>(step: (S, E) -> Option<S>, s: S, es: seq<E>, t: S)
    requires Refused(step, s, es, t)
    ensures Visited(step, s, es) == None
  {
    var n :| 0 <= n < |es| && Visited(step, s, es[..n]) == Some(t) && step(t, es[n]) == None;
    VisitedMore(step, s, es[..n], es[n..]);
    assert es == es[..n] + es[n..];
  }

  /** The closure of `read_history_path`. */
  function Take<E>(limit: Option<nat>, entries: seq<E>, entry: E): seq<E>
  {
    if limit == Some(0) then entries
    else
      var more := entries + [entry];
      if limit.Some? && |more| > limit.value then more[1..] else more
  }

  function Taking<E>(limit: Option<nat>): (seq<E>, E) -> Option<seq<E>>
  {
    (entries, entry) => Some(Take(limit, entries, entry))
  }

  lemma {:induction false} TakeKeepsTheLast<E>(limit: Option<nat>, before: seq<E>, entry: E)
    ensures Take(limit, Kept(limit, before), entry) == Kept(limit, before + [entry])
  {
    var all := before + [entry];
    if limit.Some? && |all| > limit.value {
      var from0 := |before| - (if |before| > limit.value then limit.value else |before|);
      assert Kept(limit, before) == before[from0..];
      assert before[from0..] + [entry] == all[from0..];
      assert limit.value > 0 ==> all[from0..][|all| - from0 - limit.value..] == all[|all| - limit.value..];
    }
  }

  lemma {:induction false} TakingKeepsTheLast<E>(limit: Option<nat>, before: seq<E>, es: seq<E>)
    ensures Visited(Taking(limit), Kept(limit, before), es) == Some(Kept(limit, before + es))
    decreases |es|
  {
    hide Take, Kept;
    if es == [] {
      assert before + es == before;
    } else {
      TakeKeepsTheLast(limit, before, es[0]);
      TakingKeepsTheLast(limit, before + [es[0]], es[1..]);
      assert before + [es[0]] + es[1..] == before + es;
    }
  }

  /** `read_until` from `start`. */
  method ReadLine(s: Bytes, start: nat) returns (line: Bytes)
    requires start <= |s|
    ensures line == s[start..][..LineLength(s[start..])]
  {
    var k := start;
    while k < |s| && s[k] != NEWLINE
      invariant start <= k <= |s|
      invariant forall j | start <= j < k :: s[j] != NEWLINE
    {
      k := k + 1;
    }
    var end := if k < |s| then k + 1 else k;
    line := s[start..end];
    if start < |s| {
      LineLengthIs(s[start..], end - start);
    }
  }

  lemma {:induction false} VisitUnfolds<E>(c: Codec<E>, s: Bytes)
    ensures LineLength(s) == 0 <==> s == []
    ensures Visit(c, s) == if s == [] then Read([], 0)
                           else VisitLine(c, s[..LineLength(s)]).Then(Visit(c, s[LineLength(s)..]))
  {
  }

  lemma {:induction false} DecodeUnfolds<E>(c: Codec<E>, rest: Bytes)
    requires rest == SkipSpace(rest)
    ensures DecodeLine(c, rest) ==
            if rest == [] then Read([], 0)
            else if c.Next(rest).None? then Read([], 1)
            else Read([c.Next(rest).value.0], 0).Then(DecodeLine(c, rest[c.Next(rest).value.1..]))
  {
  }

  /** Every entry of the file in turn, until the visitor refuses one. */
  method VisitHistory<S, E>(c: Codec<E>, file: Option<Bytes>, visitor: Visitor<S, E>)
    returns (summary: Option<(nat, nat)>)
    modifies visitor
    ensures var r := Visit(c, if file.Some? then file.value else []);
            && (summary.Some? <==> Visited(visitor.step, old(visitor.state), r.entries).Some?)
            && (summary.Some? ==>
                  && summary.value == (|r.entries|, r.malformed)
                  && Visited(visitor.step, old(visitor.state), r.entries) == Some(visitor.state))
            && (summary.None? ==> Refused(visitor.step, old(visitor.state), r.entries, visitor.state))
  {
    hide VisitLine, Visit, LineLength, Refused;
    var entries, malformed := 0, 0;
    VisitUnfolds(c, []);
    if file.None? {
      return Some((0, 0));
    }
    var s, k := file.value, 0;
    ghost var seen: Read<E> := Read([], 0);
    ghost var first := visitor.state;
    assert s[0..] == s;
    while true
      invariant k <= |s| && Visited(visitor.step, first, seen.entries) == Some(visitor.state)
      invariant entries == |seen.entries| && malformed == seen.malformed
      invariant seen.Then(Visit(c, s[k..])) == Visit(c, s)
      decreases |s| - k
    {
      var line := ReadLine(s, k);
      VisitUnfolds(c, s[k..]);
      if |line| == 0 {
        break;
      }
      ghost var mid, rest := visitor.state, s[k..];
      assert rest[|line|..] == s[k + |line|..];
      ThenAssoc(seen, VisitLine(c, line), Visit(c, s[k + |line|..]));
      var one := VisitOne(c, line, visitor);
      if one.None? {
        RefusedMore(visitor.step, first, seen.entries, mid, VisitLine(c, line).entries,
                    Visit(c, s[k + |line|..]).entries, visitor.state);
        RefusedIsNotVisited(visitor.step, first, Visit(c, s).entries, visitor.state);
        return None;
      }
      entries, malformed := entries + one.value.0, malformed + one.value.1;
      VisitedMore(visitor.step, first, seen.entries, VisitLine(c, line).entries);
      seen := seen.Then(VisitLine(c, line));
      k := k + |line|;
    }
    assert seen.entries + [] == seen.entries;
    return Some((entries, malformed));
  }

  /** The objects of one line. */
  method VisitOne<S, E>(c: Codec<E>, line: Bytes, visitor: Visitor<S, E>) returns (summary: Option<(nat, nat)>)
    modifies visitor
    ensures var r := VisitLine(c, line);
            if summary.Some? then
              && summary.value == (|r.entries|, r.malformed)
              && Visited(visitor.step, old(visitor.state), r.entries) == Some(visitor.state)
            else Refused(visitor.step, old(visitor.state), r.entries, visitor.state)
  {
    hide DecodeLine, SkipSpace, Refused;
    var entries := 0;
    if Blank(line) {
      return Some((0, 0));
    }
    var rest := SkipSpace(line);
    ghost var seen: Read<E> := Read([], 0);
    ghost var first := visitor.state;
    SkippedDecodes(c, line);
    assert seen.Then(DecodeLine(c, rest)) == DecodeLine(c, line);
    while rest != []
      invariant rest == SkipSpace(rest) && Visited(visitor.step, first, seen.entries) == Some(visitor.state)
      invariant entries == |seen.entries| && seen.malformed == 0
      invariant seen.Then(DecodeLine(c, rest)) == DecodeLine(c, line)
      decreases |rest|
    {
      var next := c.Next(rest);
      DecodeUnfolds(c, rest);
      if next.None? {
        assert seen.entries + [] == seen.entries;
        return Some((entries, 1));
      }
      var (e, n) := next.value;
      ghost var mid := visitor.state;
      ThenAssoc(seen, Read([e], 0), DecodeLine(c, rest[n..]));
      SkippedDecodes(c, rest[n..]);
      OneVisited(visitor.step, mid, e);
      var ok := visitor.Call(e);
      if !ok {
        RefusedMore(visitor.step, first, seen.entries, mid, [e], DecodeLine(c, rest[n..]).entries, visitor.state);
        return None;
      }
      VisitedMore(visitor.step, first, seen.entries, [e]);
      entries := entries + 1;
      seen := seen.Then(Read([e], 0));
      rest := SkipSpace(rest[n..]);
    }
    DecodeUnfolds(c, rest);
    assert seen.entries + [] == seen.entries;
    return Some((entries, 0));
  }

  lemma {:induction false} OneVisited<S, E>(step: (S, E) -> Option<S>, s: S, e: E)
    ensures Visited(step, s, [e]) == step(s, e)
    ensures step(s, e) == None ==> Refused(step, s, [e], s)
  {
    if step(s, e).Some? {
      assert [e][1..] == [];
      assert Visited(step, step(s, e).value, []) == step(s, e);
    }
    assert [e][..0] == [] && Visited(step, s, []) == Some(s);
    assert step(s, e) == None ==> Visited(step, s, [e][..0]) == Some(s) && step(s, [e][0]) == None;
  }

  lemma {:induction false} SkippedDecodes<E>(c: Codec<E>, line: Bytes)
    ensures SkipSpace(SkipSpace(line)) == SkipSpace(line)
    ensures DecodeLine(c, SkipSpace(line)) == DecodeLine(c, line)
  {
  }

  method ReadHistoryPath<E>(c: Codec<E>, file: Option<Bytes>, limit: Option<nat>)
    returns (entries: seq<E>, count: nat, malformed: nat)
    ensures var r := Visit(c, if file.Some? then file.value else []);
            && entries == Kept(limit, r.entries) && count == |r.entries| && malformed == r.malformed
  {
    hide Visit, Visited, Refused, Take;
    var visitor := new Visitor<seq<E>, E>(Taking(limit), []);
    assert Kept<E>(limit, []) == [];
    ghost var all := Visit(c, if file.Some? then file.value else []).entries;
    TakingKeepsTheLast(limit, [], all);
    assert [] + all == all;
    var summary := VisitHistory(c, file, visitor);
    entries := visitor.state;
    count, malformed := summary.value.0, summary.value.1;
  }

  /** A limited read is the end of the unlimited one. */
  lemma {:induction false} LimitKeepsTheLast<E>(k: nat, all: seq<E>)
    ensures |Kept(Some(k), all)| == if |all| < k then |all| else k
    ensures Kept(Some(k), all) == all[|all| - |Kept(Some(k), all)|..]
  {
    assert all[0..] == all && all[|all|..] == [];
  }
}
