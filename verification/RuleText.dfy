/** The rule parser against the meaning of the text: what it makes of every rendering of every
    JSON value, and the printers it undoes. */
module RuleText {
  import opened Common
  import opened RuleJson
  import opened JsonText

  /** A parse that must end at `end` with what `o` holds, or abort when it holds nothing. */
  ghost function Expect<T>(o: Option<T>, end: nat): Parsed<T>
  {
    match o case Some(x) => Ok(x, end) case None => Abort
  }

  // ---------------------------------------------------------------------
  // Reading a value of any shape as a value of one shape
  // ---------------------------------------------------------------------

  lemma {:induction false} NotOpened(text: Text, pos: nat, w: Ws, v: Value, opener: Unit, closer: Unit)
    requires Skippable(v) && At(text, pos, w + Render(v)) && Bounds(v, text, pos + |w| + |Render(v)|)
    requires (opener == OPEN_BRACKET && !v.Arr?) || (opener == OPEN_BRACE && !v.Obj?)
    ensures Opening(text, pos, opener, closer) == Abort
  {
    hide At, Render, SkipWs, Skippable;
    Begins(text, pos, w, v);
  }

  lemma {:induction false} ReadsString(text: Text, pos: nat, w: Ws, v: Value)
    requires Skippable(v) && At(text, pos, w + Render(v)) && Bounds(v, text, pos + |w| + |Render(v)|)
    ensures ParseString(text, pos) == Expect(ReadString(v), pos + |w| + |Render(v)|)
  {
    hide At, SkipWs, StringBody, RenderStr;
    if v.Str? {
      StringParses(text, pos, w, v.s);
    } else {
      Begins(text, pos, w, v);
    }
  }

  lemma {:induction false} ReadsStrings(text: Text, pos: nat, w: Ws, i: Items)
    requires ValidItems(i) && At(text, pos, w + RenderItems(i))
    ensures StringItems(text, pos) == Expect(ReadStrings(i), pos + |w| + |RenderItems(i)|)
    decreases i
  {
    hide At, Render, RenderItems, Separator, ParseString, Skippable, ReadString;
    AtBoth(text, pos, w, RenderItems(i));
    ItemSeparates(text, pos + |w|, i);
    AtJoin(text, pos, w, Render(i.v));
    ReadsString(text, pos, w, i.v);
    if i.tail.Comma? {
      ReadsStrings(text, pos + |w| + |Render(i.v)| + |i.after| + 1, i.tail.before, i.tail.rest);
    }
  }

  lemma {:induction false} ReadsStringArray(text: Text, pos: nat, w: Ws, v: Value)
    requires Skippable(v) && At(text, pos, w + Render(v)) && Bounds(v, text, pos + |w| + |Render(v)|)
    ensures ParseStringArray(text, pos) == Expect(ReadStringArray(v), pos + |w| + |Render(v)|)
  {
    hide At, Render, Opening, StringItems, RenderItems, ReadStrings;
    if v.Arr? {
      ArrayOpensAfterWs(text, pos, w, v.open, v.items);
      if v.items.Some? {
        ReadsStrings(text, pos + |w| + 1 + |v.open|, [], v.items.value);
      }
    } else {
      NotOpened(text, pos, w, v, OPEN_BRACKET, CLOSE_BRACKET);
    }
  }

  lemma {:induction false} OpeningSkipsWs(text: Text, pos: nat, w: Ws, v: Value, opener: Unit, closer: Unit)
    requires Skippable(v) && At(text, pos, w + Render(v)) && (v.Arr? || v.Obj?)
    ensures At(text, pos + |w|, Render(v))
    ensures Opening(text, pos, opener, closer) == Opening(text, pos + |w|, opener, closer)
  {
    hide At, Render;
    Begins(text, pos, w, v);
  }

  lemma {:induction false} ArrayOpensAfterWs(text: Text, pos: nat, w: Ws, open: Ws, items: Option<Items>)
    requires Skippable(Arr(open, items)) && At(text, pos, w + Render(Arr(open, items)))
    ensures var u := pos + |w| + 1 + |open|;
            && Opening(text, pos, OPEN_BRACKET, CLOSE_BRACKET) ==
               (if items.None? then Ok(true, u + 1) else Ok(false, u))
            && (items.Some? ==> At(text, u, [] + RenderItems(items.value)))
            && pos + |w| + |Render(Arr(open, items))| == u + (if items.None? then 1 else |RenderItems(items.value)|)
  {
    hide At, Render, Opening, RenderItems;
    OpeningSkipsWs(text, pos, w, Arr(open, items), OPEN_BRACKET, CLOSE_BRACKET);
    ArrayOpens(text, pos + |w|, open, items);
  }

  lemma {:induction false} ObjectOpensAfterWs(text: Text, pos: nat, w: Ws, open: Ws, members: Option<Members>)
    requires Skippable(Obj(open, members)) && At(text, pos, w + Render(Obj(open, members)))
    ensures var u := pos + |w| + 1 + |open|;
            && Opening(text, pos, OPEN_BRACE, CLOSE_BRACE) ==
               (if members.None? then Ok(true, u + 1) else Ok(false, u))
            && (members.Some? ==> At(text, u, [] + RenderMembers(members.value)))
            && pos + |w| + |Render(Obj(open, members))|
               == u + (if members.None? then 1 else |RenderMembers(members.value)|)
  {
    hide At, Render, Opening, RenderMembers;
    OpeningSkipsWs(text, pos, w, Obj(open, members), OPEN_BRACE, CLOSE_BRACE);
    ObjectOpens(text, pos + |w|, open, members);
  }

  lemma {:induction false} ReadsCallerField(text: Text, pos: nat, w: Ws, key: Text, v: Value, caller: Caller)
    requires Skippable(v) && At(text, pos, w + Render(v)) && Ends(v, text, pos + |w| + |Render(v)|)
    ensures CallerField(text, pos, key, caller) == Expect(SetCallerField(key, v, caller), pos + |w| + |Render(v)|)
  {
    hide At, Render, ParseString, SkipValue, ReadString;
    ReadsString(text, pos, w, v);
    SkipsOneValue(text, pos, w, v);
  }

  lemma {:induction false} ReadsCallerFields(text: Text, pos: nat, w: Ws, m: Members, caller: Caller)
    requires ValidMembers(m) && At(text, pos, w + RenderMembers(m))
    ensures CallerFields(text, pos, caller) == Expect(ReadCallerFields(m, caller), pos + |w| + |RenderMembers(m)|)
    decreases m
  {
    hide At, Render, RenderMembers, Separator, ParseKey, ValueAt, CallerField, SetCallerField, Skippable;
    MemberSeparates(text, pos, w, m);
    var u := ValueAt(pos + |w|, m);
    ReadsCallerField(text, u, m.gap, Decode(m.key), m.v, caller);
    var c := SetCallerField(Decode(m.key), m.v, caller);
    if c.Some? && m.tail.Comma? {
      ReadsCallerFields(text, u + |m.gap| + |Render(m.v)| + |m.after| + 1, m.tail.before, m.tail.rest, c.value);
    }
  }

  lemma {:induction false} ReadsCaller(text: Text, pos: nat, w: Ws, v: Value)
    requires Skippable(v) && At(text, pos, w + Render(v)) && Bounds(v, text, pos + |w| + |Render(v)|)
    ensures ParseCaller(text, pos) == Expect(ReadCaller(v), pos + |w| + |Render(v)|)
  {
    hide At, Render, Opening, CallerFields, RenderMembers, ReadCallerFields;
    if v.Obj? {
      ObjectOpensAfterWs(text, pos, w, v.open, v.members);
      if v.members.Some? {
        ReadsCallerFields(text, pos + |w| + 1 + |v.open|, [], v.members.value, EMPTY_CALLER);
      }
    } else {
      NotOpened(text, pos, w, v, OPEN_BRACE, CLOSE_BRACE);
    }
  }

  lemma {:induction false} ReadsCallerItems(text: Text, pos: nat, w: Ws, i: Items)
    requires ValidItems(i) && At(text, pos, w + RenderItems(i))
    ensures CallerItems(text, pos) == Expect(ReadCallerItems(i), pos + |w| + |RenderItems(i)|)
    decreases i
  {
    hide At, Render, RenderItems, Separator, ParseCaller, Skippable, ReadCaller;
    AtBoth(text, pos, w, RenderItems(i));
    ItemSeparates(text, pos + |w|, i);
    AtJoin(text, pos, w, Render(i.v));
    ReadsCaller(text, pos, w, i.v);
    if i.tail.Comma? {
      ReadsCallerItems(text, pos + |w| + |Render(i.v)| + |i.after| + 1, i.tail.before, i.tail.rest);
    }
  }

  lemma {:induction false} ReadsCallers(text: Text, pos: nat, w: Ws, v: Value)
    requires Skippable(v) && At(text, pos, w + Render(v)) && Bounds(v, text, pos + |w| + |Render(v)|)
    ensures ParseCallers(text, pos) == Expect(ReadCallers(v), pos + |w| + |Render(v)|)
  {
    hide At, Render, Opening, CallerItems, RenderItems, ReadCallerItems;
    if v.Arr? {
      ArrayOpensAfterWs(text, pos, w, v.open, v.items);
      if v.items.Some? {
        ReadsCallerItems(text, pos + |w| + 1 + |v.open|, [], v.items.value);
      }
    } else {
      NotOpened(text, pos, w, v, OPEN_BRACKET, CLOSE_BRACKET);
    }
  }

  lemma {:induction false} ReadsCtxField(text: Text, pos: nat, w: Ws, key: Text, v: Value, ctx: RuleCtx)
    requires Skippable(v) && At(text, pos, w + Render(v)) && Ends(v, text, pos + |w| + |Render(v)|)
    ensures CtxField(text, pos, key, ctx) == Expect(SetCtxField(key, v, ctx), pos + |w| + |Render(v)|)
  {
    hide At, Render, ParseString, ParseCallers, ParseStringArray, SkipValue, ReadString, ReadCallers, ReadStringArray,
      Skippable;
    ReadsString(text, pos, w, v);
    ReadsCallers(text, pos, w, v);
    ReadsStringArray(text, pos, w, v);
    SkipsOneValue(text, pos, w, v);
  }

  lemma {:induction false} ReadsCtxFields(text: Text, pos: nat, w: Ws, m: Members, ctx: RuleCtx)
    requires ValidMembers(m) && At(text, pos, w + RenderMembers(m))
    ensures CtxFields(text, pos, ctx) == Expect(ReadCtxFields(m, ctx), pos + |w| + |RenderMembers(m)|)
    decreases m
  {
    hide At, Render, RenderMembers, Separator, ParseKey, ValueAt, CtxField, SetCtxField, Skippable;
    MemberSeparates(text, pos, w, m);
    var u := ValueAt(pos + |w|, m);
    ReadsCtxField(text, u, m.gap, Decode(m.key), m.v, ctx);
    var c := SetCtxField(Decode(m.key), m.v, ctx);
    if c.Some? && m.tail.Comma? {
      ReadsCtxFields(text, u + |m.gap| + |Render(m.v)| + |m.after| + 1, m.tail.before, m.tail.rest, c.value);
    }
  }

  /** A text that starts with any rendering of any JSON value parses to the context that value
      denotes, and aborts exactly when the value does not denote one. */
  lemma {:induction false} CtxParses(text: Text, w: Ws, v: Value)
    requires Valid(v) && w + Render(v) <= text
    ensures ParseCtx(text) == Expect(ReadCtx(v), |w| + |Render(v)|)
  {
    hide At, Render, Opening, CtxFields, RenderMembers, ReadCtxFields;
    AtFront(text, w + Render(v));
    if v.Obj? {
      ObjectOpensAfterWs(text, 0, w, v.open, v.members);
      if v.members.Some? {
        ReadsCtxFields(text, |w| + 1 + |v.open|, [], v.members.value, EMPTY_CTX);
      }
    } else {
      NotOpened(text, 0, w, v, OPEN_BRACE, CLOSE_BRACE);
    }
  }

  // ---------------------------------------------------------------------
  // Unknown fields
  // ---------------------------------------------------------------------

  /** The members a rule can see, with the unknown ones taken out. */
  ghost function KnownOnly(m: Members): (k: Option<Members>)
    requires ValidMembers(m)
    ensures k.Some? ==> ValidMembers(k.value)
  {
    var rest := if m.tail.End? then None else KnownOnly(m.tail.rest);
    if !IsKnownField(Decode(m.key)) then rest
    else if rest.None? then Some(m.(tail := End))
    else Some(m.(tail := Comma(m.tail.before, rest.value)))
  }

  /** Unknown fields, wherever they stand and whatever they hold, change nothing. */
  lemma {:induction false} UnknownFieldsAreIgnored(m: Members, ctx: RuleCtx)
    requires ValidMembers(m)
    ensures ReadCtxFields(m, ctx) ==
            (match KnownOnly(m) case None => Some(ctx) case Some(k) => ReadCtxFields(k, ctx))
    decreases m
  {
    hide ReadCallers, ReadStringArray, ReadString;
    var c := SetCtxField(Decode(m.key), m.v, ctx);
    if c.Some? && m.tail.Comma? {
      UnknownFieldsAreIgnored(m.tail.rest, c.value);
    }
  }

  /** So a host that adds fields is read as the host that did not. */
  lemma {:induction false} NewerHostsReadTheSame(newer: Text, older: Text, open: Ws, m: Members)
    requires ValidMembers(m)
    requires Render(Obj(open, Some(m))) <= newer && Render(Obj(open, KnownOnly(m))) <= older
    ensures ParseCtx(newer).Ok? <==> ParseCtx(older).Ok?
    ensures ParseCtx(newer).Ok? ==> ParseCtx(newer).value == ParseCtx(older).value
  {
    hide Render, ParseCtx, ReadCtxFields;
    assert [] + Render(Obj(open, Some(m))) == Render(Obj(open, Some(m)));
    assert [] + Render(Obj(open, KnownOnly(m))) == Render(Obj(open, KnownOnly(m)));
    CtxParses(newer, [], Obj(open, Some(m)));
    CtxParses(older, [], Obj(open, KnownOnly(m)));
    UnknownFieldsAreIgnored(m, EMPTY_CTX);
  }

  // ---------------------------------------------------------------------
  // Printers
  // ---------------------------------------------------------------------

  function LowerHexDigit(d: int): (c: Unit)
    requires 0 <= d < 16
    ensures IsHexDigit(c) && HexDigit(c) == d
  {
    if d < 10 then 0x30 + d else 0x61 + d - 10
  }

  /** How `quoteJson` writes one code unit. */
  function QuoteUnit(c: Unit): Text
  {
    if c == QUOTE then [BACKSLASH, QUOTE]
    else if c == BACKSLASH then [BACKSLASH, BACKSLASH]
    else if c == 0x08 then [BACKSLASH, 0x62]
    else if c == 0x09 then [BACKSLASH, 0x74]
    else if c == 0x0a then [BACKSLASH, 0x6e]
    else if c == 0x0c then [BACKSLASH, 0x66]
    else if c == 0x0d then [BACKSLASH, 0x72]
    else if c < 0x20 then [BACKSLASH, 0x75, 0x30, 0x30, LowerHexDigit(c / 16), LowerHexDigit(c % 16)]
    else [c]
  }

  function QuoteUnits(s: Text): Text
  {
    if s == [] then [] else QuoteUnit(s[0]) + QuoteUnits(s[1..])
  }

  function Quote(s: Text): Text
  {
    [QUOTE] + QuoteUnits(s) + [QUOTE]
  }

  lemma {:induction false} NoUnits()
    ensures QuoteUnits([]) == []
  {
  }

  lemma {:induction false} QuoteUnitsSnoc(s: Text, c: Unit)
    ensures QuoteUnits(s + [c]) == QuoteUnits(s) + QuoteUnit(c)
  {
    if s == [] {
      assert s + [c] == [c] && [c][1..] == [];
    } else {
      assert (s + [c])[1..] == s[1..] + [c];
      QuoteUnitsSnoc(s[1..], c);
    }
  }

  lemma {:induction false} PaddedHex(a: Unit, b: Unit)
    requires IsHexDigit(a) && IsHexDigit(b)
    ensures HexValue([0x30, 0x30, a, b]) == HexDigit(a) * 16 + HexDigit(b)
  {
    var h: Text := [0x30, 0x30, a, b];
    assert h[..3] == [0x30, 0x30, a] && [0x30, 0x30, a][..2] == [0x30, 0x30];
    assert [0x30, 0x30][..1] == [0x30] && [0x30][..0] == [];
    assert HexValue([0x30]) == 0;
    assert HexValue([0x30, 0x30]) == 0;
    assert HexValue([0x30, 0x30, a]) == HexDigit(a);
  }

  /** The item of a string literal that `QuoteUnit` writes. */
  ghost function QuotedItem(c: Unit): (item: StrItem)
    ensures item.Valid() && item.Render() == QuoteUnit(c) && item.Value() == c
  {
    if c == QUOTE || c == BACKSLASH || c == 0x08 || c == 0x09 || c == 0x0a || c == 0x0c || c == 0x0d then
      Short(QuoteUnit(c)[1])
    else if c < 0x20 then
      PaddedHex(LowerHexDigit(c / 16), LowerHexDigit(c % 16));
      var hex := [0x30, 0x30, LowerHexDigit(c / 16), LowerHexDigit(c % 16)];
      assert [BACKSLASH, 0x75] + hex == QuoteUnit(c);
      Long(hex)
    else Raw(c)
  }

  ghost function QuotedItems(s: Text): (lit: StrLit)
  {
    if s == [] then [] else [QuotedItem(s[0])] + QuotedItems(s[1..])
  }

  /** `quoteJson` writes a string literal of RFC 8259 that means the string it was given. */
  lemma {:induction false} QuoteIsALiteral(s: Text)
    ensures ValidStr(QuotedItems(s)) && Decode(QuotedItems(s)) == s
    ensures RenderStr(QuotedItems(s)) == Quote(s)
  {
    QuotedBody(s);
    assert [QUOTE] + (QuoteUnits(s) + [QUOTE]) == Quote(s);
  }

  lemma {:induction false} QuotedBody(s: Text)
    ensures ValidStr(QuotedItems(s)) && Decode(QuotedItems(s)) == s
    ensures RenderBody(QuotedItems(s)) == QuoteUnits(s) + [QUOTE]
  {
    hide StrItem.Render, StrItem.Valid, StrItem.Value, QuoteUnit;
    if s != [] {
      QuotedBody(s[1..]);
      var lit := QuotedItems(s);
      assert lit[1..] == QuotedItems(s[1..]);
      assert QuoteUnit(s[0]) + (QuoteUnits(s[1..]) + [QUOTE]) == QuoteUnits(s) + [QUOTE];
      assert s == [s[0]] + s[1..];
    }
  }

  /** What `quoteJson` writes, `parseString` reads back, stopping exactly at whatever follows. */
  lemma {:induction false} StringRoundTrip(before: Text, s: Text, suffix: Text)
    ensures ParseString(before + Quote(s) + suffix, |before|) == Ok(s, |before| + |Quote(s)|)
  {
    hide At, Quote, RenderStr, ParseString;
    var text := before + Quote(s) + suffix;
    QuoteIsALiteral(s);
    AtMiddle(before, Quote(s), suffix);
    assert [] + Quote(s) == Quote(s);
    StringParses(text, |before|, [], QuotedItems(s));
  }

  /** The subject list, as `encodeSubjects` writes it. */
  function QuotedList(subjects: seq<Text>): Text
  {
    if subjects == [] then [CLOSE_BRACKET]
    else Quote(subjects[0]) + (if |subjects| == 1 then [] else [COMMA]) + QuotedList(subjects[1..])
  }

  function SubjectsText(subjects: seq<Text>): Text
  {
    [OPEN_BRACKET] + QuotedList(subjects)
  }

  ghost function SubjectItems(subjects: seq<Text>): Items
    requires subjects != []
    decreases |subjects|
  {
    Items(Str(QuotedItems(subjects[0])), [],
          if |subjects| == 1 then End else Comma([], SubjectItems(subjects[1..])))
  }

  lemma {:induction false} SubjectItemsRender(subjects: seq<Text>)
    requires subjects != []
    ensures ValidItems(SubjectItems(subjects))
    ensures RenderItems(SubjectItems(subjects)) == QuotedList(subjects)
    ensures ReadStrings(SubjectItems(subjects)) == Some(subjects)
    decreases |subjects|
  {
    hide RenderStr, Quote;
    QuoteIsALiteral(subjects[0]);
    var i := SubjectItems(subjects);
    var q := Quote(subjects[0]);
    assert Render(i.v) == q;
    if |subjects| == 1 {
      assert subjects[1..] == [] && [subjects[0]] == subjects;
      assert q + ([] + [CLOSE_BRACKET]) == q + [] + [CLOSE_BRACKET];
    } else {
      SubjectItemsRender(subjects[1..]);
      CommaJoins(q, QuotedList(subjects[1..]));
      assert [subjects[0]] + subjects[1..] == subjects;
    }
  }

  lemma {:induction false} CommaJoins(q: Text, rest: Text)
    ensures q + ([] + ([COMMA] + ([] + rest))) == q + [COMMA] + rest
  {
  }

  ghost function PrintStrings(ss: seq<Text>): Value
  {
    Arr([], if ss == [] then None else Some(SubjectItems(ss)))
  }

  lemma {:induction false} PrintedStringsRead(ss: seq<Text>)
    ensures Valid(PrintStrings(ss)) && ReadStringArray(PrintStrings(ss)) == Some(ss)
    ensures Render(PrintStrings(ss)) == SubjectsText(ss)
  {
    if ss != [] {
      assert SubjectItems(ss).v.Str?;
      hide RenderItems, ReadStrings, ValidItems, SubjectItems;
      SubjectItemsRender(ss);
    }
    assert [] + QuotedList(ss) == QuotedList(ss);
  }

  /** `parseStringArray` inverts the text of `encodeSubjects`, whatever stands around it. */
  lemma {:induction false} SubjectsRoundTrip(before: Text, subjects: seq<Text>, suffix: Text)
    ensures ParseStringArray(before + SubjectsText(subjects) + suffix, |before|)
            == Ok(subjects, |before| + |SubjectsText(subjects)|)
  {
    hide At, SubjectsText, Render, ParseStringArray, ReadStringArray, Skippable, PrintStrings;
    PrintedStringsRead(subjects);
    var t := SubjectsText(subjects);
    AtMiddle(before, t, suffix);
    assert [] + t == t;
    ReadsStringArray(before + t + suffix, |before|, [], PrintStrings(subjects));
  }

  // ---------------------------------------------------------------------
  // A context printed by the host
  // ---------------------------------------------------------------------

  ghost function Field(key: Text, v: Value, tail: Tail<Members>): Members
  {
    Members(QuotedItems(key), [], [], v, [], tail)
  }

  ghost function Then(m: Members): Tail<Members>
  {
    Comma([], m)
  }

  ghost function StrValue(s: Text): Value
  {
    Str(QuotedItems(s))
  }

  /** A caller as the host knows it: it may not know the executable. */
  datatype HostCaller = HostCaller(name: Text, command: Text, exe: Option<Text>) {
    /** What a rule sees of it. */
    function Seen(): Caller
    {
      Caller(name, command, if exe.Some? then exe.value else [])
    }
  }

  datatype HostCtx = HostCtx(wrap: Text, joinedArgv: Text, callers: seq<HostCaller>, cwd: Text, secrets: seq<Text>) {
    function Seen(): RuleCtx
    {
      RuleCtx(wrap, joinedArgv, SeenCallers(callers), cwd, secrets)
    }
  }

  function SeenCallers(cs: seq<HostCaller>): seq<Caller>
  {
    if cs == [] then [] else [cs[0].Seen()] + SeenCallers(cs[1..])
  }

  /** What becomes of an unknown executable: the host leaves the member out; the comment beside
      the code has it written as `null`. */
  datatype Unknown = LeftOut | AsNull

  /** `null`, in code units. */
  const NULL: Text := [0x6e, 0x75, 0x6c, 0x6c]

  ghost function PrintExe(exe: Option<Text>, unknown: Unknown): Tail<Members>
  {
    match exe
    case Some(s) => Then(Field(EXE, StrValue(s), End))
    case None => if unknown.LeftOut? then End else Then(Field(EXE, Literal(NULL), End))
  }

  ghost function PrintCaller(c: HostCaller, unknown: Unknown): Value
  {
    Obj([], Some(Field(NAME, StrValue(c.name), Then(Field(COMMAND, StrValue(c.command), PrintExe(c.exe, unknown))))))
  }

  ghost function PrintCallerItems(cs: seq<HostCaller>, unknown: Unknown): Items
    requires cs != []
    decreases |cs|
  {
    Items(PrintCaller(cs[0], unknown), [], if |cs| == 1 then End else Comma([], PrintCallerItems(cs[1..], unknown)))
  }

  ghost function PrintCallers(cs: seq<HostCaller>, unknown: Unknown): Value
  {
    Arr([], if cs == [] then None else Some(PrintCallerItems(cs, unknown)))
  }

  /** The context object as the host serialises it: its fields in their order, with no space. */
  ghost function PrintCtx(c: HostCtx, unknown: Unknown): Value
  {
    Obj([], Some(Field(WRAP, StrValue(c.wrap), Then(Field(JOINED_ARGV, StrValue(c.joinedArgv),
      Then(Field(CALLERS, PrintCallers(c.callers, unknown), Then(Field(CWD, StrValue(c.cwd),
      Then(Field(SECRETS, PrintStrings(c.secrets), End)))))))))))
  }

  /** The host knows every executable, or leaves out those it does not. */
  ghost predicate Readable(cs: seq<HostCaller>, unknown: Unknown)
  {
    unknown.LeftOut? || forall k | 0 <= k < |cs| :: cs[k].exe.Some?
  }

  lemma {:induction false} StrValueReads(s: Text)
    ensures Valid(StrValue(s)) && ReadString(StrValue(s)) == Some(s)
  {
    QuoteIsALiteral(s);
  }

  lemma {:induction false} KeyIsRead(key: Text)
    ensures ValidStr(QuotedItems(key)) && Decode(QuotedItems(key)) == key
  {
    QuoteIsALiteral(key);
  }

  lemma {:induction false} PrintedExeReads(c: HostCaller, unknown: Unknown, caller: Caller)
    requires caller == Caller(c.name, c.command, [])
    ensures var t := PrintExe(c.exe, unknown);
            && (t.Comma? ==> t.before == [] && ValidMembers(t.rest))
            && (if t.Comma? then ReadCallerFields(t.rest, caller) else Some(caller))
               == if unknown.LeftOut? || c.exe.Some? then Some(c.Seen()) else None
  {
    hide ReadString, QuotedItems, StrValue, Decode, ValidStr;
    KeyIsRead(EXE);
    if c.exe.Some? {
      StrValueReads(c.exe.value);
    }
    NullIsNoString();
    assert EXE != NAME && EXE != COMMAND;
  }

  lemma {:induction false} NullIsNoString()
    ensures Valid(Literal(NULL)) && ReadString(Literal(NULL)) == None
  {
  }

  lemma {:induction false} PrintedCallerReads(c: HostCaller, unknown: Unknown)
    ensures Valid(PrintCaller(c, unknown))
    ensures ReadCaller(PrintCaller(c, unknown)) == if unknown.LeftOut? || c.exe.Some? then Some(c.Seen()) else None
  {
    hide ReadString, QuotedItems, StrValue, Decode, ValidStr, PrintExe, HostCaller.Seen;
    KeyIsRead(NAME);
    KeyIsRead(COMMAND);
    StrValueReads(c.name);
    StrValueReads(c.command);
    var c1 := EMPTY_CALLER.(name := c.name);
    var c2 := c1.(command := c.command);
    PrintedExeReads(c, unknown, c2);
    var second := Field(COMMAND, StrValue(c.command), PrintExe(c.exe, unknown));
    var first := Field(NAME, StrValue(c.name), Then(second));
    assert NAME != COMMAND;
    assert ValidMembers(second) && ValidMembers(first);
    assert ReadCallerFields(first, EMPTY_CALLER) == ReadCallerFields(second, c1);
  }

  lemma {:induction false} ReadableOneByOne(cs: seq<HostCaller>, unknown: Unknown)
    requires cs != []
    ensures Readable(cs, unknown) <==> (unknown.LeftOut? || cs[0].exe.Some?) && Readable(cs[1..], unknown)
  {
    assert forall k | 0 < k < |cs| :: cs[k] == cs[1..][k - 1];
  }

  lemma {:induction false} ReadableNone(unknown: Unknown)
    ensures Readable([], unknown)
  {
  }

  lemma {:induction false} PrintedCallersRead(cs: seq<HostCaller>, unknown: Unknown)
    requires cs != []
    ensures ValidItems(PrintCallerItems(cs, unknown))
    ensures ReadCallerItems(PrintCallerItems(cs, unknown))
            == if Readable(cs, unknown) then Some(SeenCallers(cs)) else None
    decreases |cs|
  {
    hide PrintCaller, ReadCaller, HostCaller.Seen, Readable;
    PrintedCallerReads(cs[0], unknown);
    ReadableOneByOne(cs, unknown);
    var i := PrintCallerItems(cs, unknown);
    assert i.v == PrintCaller(cs[0], unknown);
    assert SeenCallers(cs) == [cs[0].Seen()] + SeenCallers(cs[1..]);
    if |cs| == 1 {
      assert i.tail == End;
      assert cs[1..] == [] && SeenCallers(cs) == [cs[0].Seen()];
      ReadableNone(unknown);
    } else {
      PrintedCallersRead(cs[1..], unknown);
      assert i.tail == Comma([], PrintCallerItems(cs[1..], unknown));
    }
  }

  lemma {:induction false} PrintedCallersValueReads(cs: seq<HostCaller>, unknown: Unknown)
    ensures Valid(PrintCallers(cs, unknown))
    ensures ReadCallers(PrintCallers(cs, unknown)) == if Readable(cs, unknown) then Some(SeenCallers(cs)) else None
  {
    hide ReadCallerItems, Readable, HostCaller.Seen;
    ReadableNone(unknown);
    if cs != [] {
      assert PrintCallerItems(cs, unknown).v.Obj?;
      hide PrintCallerItems, PrintCaller, ReadCaller, SeenCallers, ValidItems;
      PrintedCallersRead(cs, unknown);
    }
  }

  lemma {:induction false} PrintedCtxReads(c: HostCtx, unknown: Unknown)
    ensures Valid(PrintCtx(c, unknown))
    ensures ReadCtx(PrintCtx(c, unknown)) == if Readable(c.callers, unknown) then Some(c.Seen()) else None
  {
    hide ReadString, QuotedItems, StrValue, Decode, ValidStr, ReadStringArray, PrintStrings, PrintCallers, ReadCallers,
      Readable, SeenCallers;
    KeyIsRead(WRAP);
    KeyIsRead(JOINED_ARGV);
    KeyIsRead(CALLERS);
    KeyIsRead(CWD);
    KeyIsRead(SECRETS);
    StrValueReads(c.wrap);
    StrValueReads(c.joinedArgv);
    StrValueReads(c.cwd);
    PrintedStringsRead(c.secrets);
    PrintedCallersValueReads(c.callers, unknown);
    FieldNamesDiffer();
    var callers := PrintCallers(c.callers, unknown);
    var f5 := Field(SECRETS, PrintStrings(c.secrets), End);
    var f4 := Field(CWD, StrValue(c.cwd), Then(f5));
    var f3 := Field(CALLERS, callers, Then(f4));
    var f2 := Field(JOINED_ARGV, StrValue(c.joinedArgv), Then(f3));
    var f1 := Field(WRAP, StrValue(c.wrap), Then(f2));
    assert ValidMembers(f5) && ValidMembers(f4) && ValidMembers(f3) && ValidMembers(f2) && ValidMembers(f1);
    var c1 := EMPTY_CTX.(wrap := c.wrap);
    var c2 := c1.(joinedArgv := c.joinedArgv);
    assert ReadCtxFields(f1, EMPTY_CTX) == ReadCtxFields(f2, c1) == ReadCtxFields(f3, c2);
    if Readable(c.callers, unknown) {
      var c3 := c2.(callers := SeenCallers(c.callers));
      var c4 := c3.(cwd := c.cwd);
      assert ReadCtxFields(f5, c4) == Some(c.Seen());
      assert ReadCtxFields(f4, c3) == Some(c.Seen());
      assert ReadCtxFields(f3, c2) == Some(c.Seen());
    }
  }

  lemma {:induction false} FieldNamesDiffer()
    ensures WRAP != JOINED_ARGV && WRAP != CALLERS && WRAP != CWD && WRAP != SECRETS
    ensures JOINED_ARGV != CALLERS && JOINED_ARGV != CWD && JOINED_ARGV != SECRETS
    ensures CALLERS != CWD && CALLERS != SECRETS && CWD != SECRETS
  {
    assert WRAP[0] == 0x77 && SECRETS[0] == 0x73;
    assert WRAP[1] == 0x72 && CALLERS[1] == 0x61 && CWD[1] == 0x77;
    assert |JOINED_ARGV| == 11 && |WRAP| == 4 && |CALLERS| == 7 && |CWD| == 3 && |SECRETS| == 7;
    assert SECRETS[0] != CALLERS[0];
  }

  /** A context the host printed comes back as it was, an executable it does not know as the
      empty string. */
  lemma {:induction false} CtxRoundTrip(c: HostCtx, suffix: Text)
    ensures var printed := Render(PrintCtx(c, LeftOut));
            ParseCtx(printed + suffix) == Ok(c.Seen(), |printed|)
  {
    PrintedCtxParses(c, LeftOut, suffix);
  }

  /** Written as `null` instead, an executable the host does not know would make the rule abort:
      it would read exactly the contexts that have none. */
  lemma {:induction false} NullExeAborts(c: HostCtx, suffix: Text)
    ensures ParseCtx(Render(PrintCtx(c, AsNull)) + suffix).Ok? <==>
            forall k | 0 <= k < |c.callers| :: c.callers[k].exe.Some?
  {
    PrintedCtxParses(c, AsNull, suffix);
    hide Render, PrintCtx, ParseCtx;
  }

  lemma {:induction false} PrintedCtxParses(c: HostCtx, unknown: Unknown, suffix: Text)
    ensures var printed := Render(PrintCtx(c, unknown));
            ParseCtx(printed + suffix) == if Readable(c.callers, unknown) then Ok(c.Seen(), |printed|) else Abort
  {
    hide Render, PrintCtx, ParseCtx, ReadCtx, Readable;
    PrintedCtxReads(c, unknown);
    var printed := Render(PrintCtx(c, unknown));
    assert [] + printed == printed <= printed + suffix;
    CtxParses(printed + suffix, [], PrintCtx(c, unknown));
  }
}
