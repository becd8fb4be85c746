/** The rule ABI as it is spelled: the field names, the punctuation and the escapes taken from
    character literals, the text the host sends, and what the parser makes of it. */
module RuleSpelling {
  import opened Common
  import opened RuleJson
  import opened JsonText
  import opened RuleText

  /** The code units of a literal, whose characters are all one unit each. */
  function Units(s: string): (t: Text)
    ensures |t| == |s|
  {
    seq(|s|, k requires 0 <= k < |s| => Unit1(s[k]))
  }

  function Unit1(c: char): Unit
  {
    if c as int < 0x1_0000 then c as int else 0xfffd
  }

  // ---------------------------------------------------------------------
  // The alphabet
  // ---------------------------------------------------------------------

  lemma {:induction false} NamesAreSpelled()
    ensures WRAP == Units("wrap") && JOINED_ARGV == Units("joined_argv") && CALLERS == Units("callers")
    ensures CWD == Units("cwd") && SECRETS == Units("secrets")
    ensures NAME == Units("name") && COMMAND == Units("command") && EXE == Units("exe")
  {
  }

  lemma {:induction false} PunctuationIsSpelled()
    ensures Units("{") == [OPEN_BRACE] && Units("}") == [CLOSE_BRACE]
    ensures Units("[") == [OPEN_BRACKET] && Units("]") == [CLOSE_BRACKET]
    ensures Units(",") == [COMMA] && Units(":") == [COLON] && Units("\"") == [QUOTE] && Units("\\") == [BACKSLASH]
  {
  }

  /** What RFC 8259 section 7 has each letter after a backslash stand for. */
  lemma {:induction false} EscapesAreSpelled(e: Unit)
    ensures Escaped(e) ==
            if e == '\"' as int then Some('\"' as int)
            else if e == '\\' as int then Some('\\' as int)
            else if e == '/' as int then Some('/' as int)
            else if e == 'b' as int then Some('\U{0008}' as int)
            else if e == 'f' as int then Some('\U{000C}' as int)
            else if e == 'n' as int then Some('\n' as int)
            else if e == 'r' as int then Some('\r' as int)
            else if e == 't' as int then Some('\t' as int)
            else None
    ensures IsWs(e) <==> e == ' ' as int || e == '\t' as int || e == '\n' as int || e == '\r' as int
  {
  }

  /** The value of a hexadecimal digit is its place among the sixteen. */
  lemma {:induction false} HexDigitsAreSpelled(e: Unit)
    ensures IsHexDigit(e) ==>
              e == "0123456789abcdef"[HexDigit(e)] as int || e == "0123456789ABCDEF"[HexDigit(e)] as int
    ensures forall d | 0 <= d < 16 ::
              e == "0123456789abcdef"[d] as int || e == "0123456789ABCDEF"[d] as int ==>
                IsHexDigit(e) && HexDigit(e) == d
  {
  }

  // ---------------------------------------------------------------------
  // The text the host sends
  // ---------------------------------------------------------------------

  /** The elements, a comma apart. */
  function Listed(texts: seq<Text>): Text
  {
    if texts == [] then []
    else if |texts| == 1 then texts[0]
    else texts[0] + (Units(",") + Listed(texts[1..]))
  }

  function Quotes(ss: seq<Text>): seq<Text>
  {
    if ss == [] then [] else [Quote(ss[0])] + Quotes(ss[1..])
  }

  function CallerText(c: HostCaller): Text
  {
    Units("{\"name\":") + (Quote(c.name) + (Units(",\"command\":") + (Quote(c.command) +
      ((if c.exe.Some? then Units(",\"exe\":") + Quote(c.exe.value) else []) + Units("}")))))
  }

  function CallerTexts(cs: seq<HostCaller>): seq<Text>
  {
    if cs == [] then [] else [CallerText(cs[0])] + CallerTexts(cs[1..])
  }

  /** What `serde_json` writes of the context. */
  function HostText(c: HostCtx): Text
  {
    Units("{\"wrap\":") + (Quote(c.wrap) + (Units(",\"joined_argv\":") + (Quote(c.joinedArgv) +
      (Units(",\"callers\":[") + (Listed(CallerTexts(c.callers)) + (Units("],\"cwd\":") + (Quote(c.cwd) +
      (Units(",\"secrets\":[") + (Listed(Quotes(c.secrets)) + Units("]}"))))))))))
  }

  /** Nothing in the text is written with an escape. */
  ghost predicate Unescaped(s: Text)
  {
    forall k | 0 <= k < |s| :: s[k] >= 0x20 && s[k] != QUOTE && s[k] != BACKSLASH
  }

  lemma {:induction false} PlainQuotes(s: Text)
    requires Unescaped(s)
    ensures QuoteUnits(s) == s
  {
    if s != [] {
      PlainQuotes(s[1..]);
      assert s == [s[0]] + s[1..];
    }
  }

  /** A member as the host writes it: its key between quotes, and no space. */
  lemma {:induction false} FieldRenders(key: Text, v: Value, tail: Tail<Members>)
    requires Unescaped(key)
    ensures RenderMembers(Field(key, v, tail)) ==
            [QUOTE] + key + [QUOTE, COLON] + (Render(v) + AfterMember(Field(key, v, tail)))
  {
    hide RenderStr, Render, AfterMember;
    QuoteIsALiteral(key);
    PlainQuotes(key);
    var rest := Render(v) + AfterMember(Field(key, v, tail));
    assert [] + (Render(v) + ([] + AfterMember(Field(key, v, tail)))) == rest;
    assert Quote(key) + ([] + ([COLON] + rest)) == [QUOTE] + key + [QUOTE, COLON] + rest;
  }

  lemma {:induction false} AfterField(key: Text, v: Value, m: Members)
    ensures AfterMember(Field(key, v, End)) == [CLOSE_BRACE]
    ensures AfterMember(Field(key, v, Then(m))) == [COMMA] + RenderMembers(m)
  {
    hide RenderMembers;
    assert [] + RenderMembers(m) == RenderMembers(m);
  }

  lemma {:induction false} ObjectRenders(m: Members)
    ensures Render(Obj([], Some(m))) == [OPEN_BRACE] + RenderMembers(m)
  {
    hide RenderMembers;
    assert [] + RenderMembers(m) == RenderMembers(m);
  }

  lemma {:induction false} StringRenders(s: Text)
    ensures Render(StrValue(s)) == Quote(s)
  {
    QuoteIsALiteral(s);
  }

  lemma {:induction false} Lead(x: Unit, key: Text, rest: Text)
    ensures [x] + ([QUOTE] + key + [QUOTE, COLON] + rest) == [x, QUOTE] + key + [QUOTE, COLON] + rest
  {
  }

  /** The first member of an object, behind its brace. */
  lemma {:induction false} FirstField(lit: Text, key: Text, v: Value, tail: Tail<Members>)
    requires lit == [OPEN_BRACE, QUOTE] + key + [QUOTE, COLON] && Unescaped(key)
    ensures Render(Obj([], Some(Field(key, v, tail)))) == lit + (Render(v) + AfterMember(Field(key, v, tail)))
  {
    hide *;
    FieldRenders(key, v, tail);
    ObjectRenders(Field(key, v, tail));
    Lead(OPEN_BRACE, key, Render(v) + AfterMember(Field(key, v, tail)));
  }

  /** And the next, behind its comma. */
  lemma {:induction false} NextField(lit: Text, key0: Text, v0: Value, key: Text, v: Value, tail: Tail<Members>)
    requires lit == [COMMA, QUOTE] + key + [QUOTE, COLON] && Unescaped(key)
    ensures AfterMember(Field(key0, v0, Then(Field(key, v, tail))))
            == lit + (Render(v) + AfterMember(Field(key, v, tail)))
  {
    hide *;
    FieldRenders(key, v, tail);
    AfterField(key0, v0, Field(key, v, tail));
    Lead(COMMA, key, Render(v) + AfterMember(Field(key, v, tail)));
  }

  /** The literals the members begin with. */
  lemma {:induction false} LeadsAreSpelled()
    ensures Units("{\"wrap\":") == [OPEN_BRACE, QUOTE] + WRAP + [QUOTE, COLON]
    ensures Units(",\"joined_argv\":") == [COMMA, QUOTE] + JOINED_ARGV + [QUOTE, COLON]
    ensures Units(",\"callers\":") == [COMMA, QUOTE] + CALLERS + [QUOTE, COLON]
    ensures Units(",\"cwd\":") == [COMMA, QUOTE] + CWD + [QUOTE, COLON]
    ensures Units(",\"secrets\":") == [COMMA, QUOTE] + SECRETS + [QUOTE, COLON]
  {
  }

  lemma {:induction false} CallerLeadsAreSpelled()
    ensures Units("{\"name\":") == [OPEN_BRACE, QUOTE] + NAME + [QUOTE, COLON]
    ensures Units(",\"command\":") == [COMMA, QUOTE] + COMMAND + [QUOTE, COLON]
    ensures Units(",\"exe\":") == [COMMA, QUOTE] + EXE + [QUOTE, COLON]
  {
  }

  lemma {:induction false} NamesAreUnescaped()
    ensures Unescaped(WRAP) && Unescaped(JOINED_ARGV) && Unescaped(CALLERS) && Unescaped(CWD) && Unescaped(SECRETS)
    ensures Unescaped(NAME) && Unescaped(COMMAND) && Unescaped(EXE)
  {
  }

  lemma {:induction false} CallerRenders(c: HostCaller)
    ensures Render(PrintCaller(c, LeftOut)) == CallerText(c)
  {
    CallerLeadsAreSpelled();
    NamesAreUnescaped();
    hide Render, AfterMember, Quote, Units, Field, PrintExe, StrValue, Unescaped;
    StringRenders(c.name);
    StringRenders(c.command);
    var tail := PrintExe(c.exe, LeftOut);
    FirstField(Units("{\"name\":"), NAME, StrValue(c.name), Then(Field(COMMAND, StrValue(c.command), tail)));
    NextField(Units(",\"command\":"), NAME, StrValue(c.name), COMMAND, StrValue(c.command), tail);
    ExeRenders(c);
  }

  lemma {:induction false} ExeRenders(c: HostCaller)
    ensures AfterMember(Field(COMMAND, StrValue(c.command), PrintExe(c.exe, LeftOut)))
            == (if c.exe.Some? then Units(",\"exe\":") + Quote(c.exe.value) else []) + Units("}")
  {
    CallerLeadsAreSpelled();
    NamesAreUnescaped();
    PunctuationIsSpelled();
    hide Render, AfterMember, Quote, Units, Field, StrValue, Unescaped;
    if c.exe.Some? {
      var v := StrValue(c.exe.value);
      StringRenders(c.exe.value);
      NextField(Units(",\"exe\":"), COMMAND, StrValue(c.command), EXE, v, End);
      AfterField(EXE, v, Field(EXE, v, End));
      assert Units(",\"exe\":") + (Quote(c.exe.value) + Units("}"))
          == (Units(",\"exe\":") + Quote(c.exe.value)) + Units("}");
    } else {
      AfterField(COMMAND, StrValue(c.command), Field(COMMAND, StrValue(c.command), End));
      assert [] + Units("}") == Units("}");
    }
  }

  /** What `Listed` writes between its brackets is how an array renders. */
  lemma {:induction false} StringsRender(ss: seq<Text>)
    requires ss != []
    ensures RenderItems(SubjectItems(ss)) == Listed(Quotes(ss)) + Units("]")
    decreases |ss|
  {
    hide Quote;
    StringRenders(ss[0]);
    PunctuationIsSpelled();
    var q := Quote(ss[0]);
    if |ss| == 1 {
      assert Quotes(ss) == [q];
      assert q + ([] + [CLOSE_BRACKET]) == q + Units("]");
    } else {
      StringsRender(ss[1..]);
      QuotesCount(ss[1..]);
      assert Quotes(ss)[1..] == Quotes(ss[1..]);
      ListMore(q, Listed(Quotes(ss[1..])), RenderItems(SubjectItems(ss[1..])));
    }
  }

  lemma {:induction false} ListMore(head: Text, listed: Text, rest: Text)
    requires rest == listed + Units("]")
    ensures head + ([] + ([COMMA] + ([] + rest))) == (head + (Units(",") + listed)) + Units("]")
  {
    PunctuationIsSpelled();
    hide Units;
    assert [] + rest == rest;
    assert [COMMA] + (listed + Units("]")) == ([COMMA] + listed) + Units("]");
  }

  lemma {:induction false} QuotesCount(ss: seq<Text>)
    ensures |Quotes(ss)| == |ss|
  {
    if ss != [] {
      QuotesCount(ss[1..]);
    }
  }

  lemma {:induction false} CallerTextsCount(cs: seq<HostCaller>)
    ensures |CallerTexts(cs)| == |cs|
  {
    if cs != [] {
      CallerTextsCount(cs[1..]);
    }
  }

  lemma {:induction false} CallersRender(cs: seq<HostCaller>)
    requires cs != []
    ensures RenderItems(PrintCallerItems(cs, LeftOut)) == Listed(CallerTexts(cs)) + Units("]")
    decreases |cs|
  {
    hide PrintCaller, CallerText;
    CallerRenders(cs[0]);
    PunctuationIsSpelled();
    var q := CallerText(cs[0]);
    if |cs| == 1 {
      assert CallerTexts(cs) == [q];
      assert q + ([] + [CLOSE_BRACKET]) == q + Units("]");
    } else {
      CallersRender(cs[1..]);
      CallerTextsCount(cs[1..]);
      assert CallerTexts(cs)[1..] == CallerTexts(cs[1..]);
      ListMore(q, Listed(CallerTexts(cs[1..])), RenderItems(PrintCallerItems(cs[1..], LeftOut)));
    }
  }

  lemma {:induction false} ArrayRenders(items: Option<Items>, listed: Text)
    requires items.Some? ==> RenderItems(items.value) == listed + Units("]")
    requires items.None? ==> listed == []
    ensures Render(Arr([], items)) == Units("[") + (listed + Units("]"))
  {
    PunctuationIsSpelled();
    hide RenderItems, Units;
    assert [] + [CLOSE_BRACKET] == [CLOSE_BRACKET];
    if items.Some? {
      assert [] + RenderItems(items.value) == RenderItems(items.value);
    }
  }

  lemma {:induction false} ArraysRender(ss: seq<Text>, cs: seq<HostCaller>)
    ensures Render(PrintStrings(ss)) == Units("[") + (Listed(Quotes(ss)) + Units("]"))
    ensures Render(PrintCallers(cs, LeftOut)) == Units("[") + (Listed(CallerTexts(cs)) + Units("]"))
  {
    if ss != [] {
      StringsRender(ss);
    }
    if cs != [] {
      CallersRender(cs);
    }
    hide Render, RenderItems, SubjectItems, PrintCallerItems, Units;
    ArrayRenders(if ss == [] then None else Some(SubjectItems(ss)), Listed(Quotes(ss)));
    ArrayRenders(if cs == [] then None else Some(PrintCallerItems(cs, LeftOut)), Listed(CallerTexts(cs)));
  }

  /** The value `PrintCtx` stands for is rendered as the host's text. */
  lemma {:induction false} CtxRenders(c: HostCtx)
    ensures Render(PrintCtx(c, LeftOut)) == HostText(c)
  {
    LeadsAreSpelled();
    NamesAreUnescaped();
    PunctuationIsSpelled();
    Brackets();
    hide Render, AfterMember, Quote, Units, Field, StrValue, PrintCallers, PrintStrings, Unescaped, Listed, Quotes,
      CallerTexts;
    StringRenders(c.wrap);
    StringRenders(c.joinedArgv);
    StringRenders(c.cwd);
    ArraysRender(c.secrets, c.callers);
    var v1, v2, v3 := StrValue(c.wrap), StrValue(c.joinedArgv), PrintCallers(c.callers, LeftOut);
    var v4, v5 := StrValue(c.cwd), PrintStrings(c.secrets);
    var f5 := Field(SECRETS, v5, End);
    var f4 := Field(CWD, v4, Then(f5));
    var f3 := Field(CALLERS, v3, Then(f4));
    var f2 := Field(JOINED_ARGV, v2, Then(f3));
    FirstField(Units("{\"wrap\":"), WRAP, v1, Then(f2));
    NextField(Units(",\"joined_argv\":"), WRAP, v1, JOINED_ARGV, v2, Then(f3));
    NextField(Units(",\"callers\":"), JOINED_ARGV, v2, CALLERS, v3, Then(f4));
    NextField(Units(",\"cwd\":"), CALLERS, v3, CWD, v4, Then(f5));
    NextField(Units(",\"secrets\":"), CWD, v4, SECRETS, v5, End);
    AfterField(SECRETS, v5, f5);
    Regroup(Units(",\"callers\":"), Units("["), Listed(CallerTexts(c.callers)), Units("]"), Units(",\"cwd\":"),
            Quote(c.cwd) + AfterMember(f4));
    Regroup(Units(",\"secrets\":"), Units("["), Listed(Quotes(c.secrets)), Units("]"), Units("}"), []);
  }

  lemma {:induction false} Brackets()
    ensures Units(",\"callers\":[") == Units(",\"callers\":") + Units("[")
    ensures Units("],\"cwd\":") == Units("]") + Units(",\"cwd\":")
    ensures Units(",\"secrets\":[") == Units(",\"secrets\":") + Units("[")
    ensures Units("]}") == Units("]") + Units("}")
  {
  }

  lemma {:induction false} Regroup(a: Text, b: Text, c: Text, d: Text, e: Text, f: Text)
    ensures a + ((b + (c + d)) + (e + f)) == (a + b) + (c + ((d + e) + f))
    ensures a + ((b + (c + d)) + e) == (a + b) + (c + (d + e))
  {
  }

  /** What the host sends, a rule reads back: every field under its own name, an executable the
      host does not know as the empty string, whatever follows. */
  lemma {:induction false} HostTextReads(c: HostCtx, suffix: Text)
    ensures ParseCtx(HostText(c) + suffix) == Ok(c.Seen(), |HostText(c)|)
  {
    hide *;
    CtxRenders(c);
    CtxRoundTrip(c, suffix);
  }

  /** And the subjects a rule declares are written as a JSON array of strings. */
  lemma {:induction false} SubjectsAreSpelled(ss: seq<Text>)
    ensures SubjectsText(ss) == Units("[") + (Listed(Quotes(ss)) + Units("]"))
  {
    hide *;
    PrintedStringsRead(ss);
    ArraysRender(ss, []);
  }

  // ---------------------------------------------------------------------
  // One field at a time
  // ---------------------------------------------------------------------

  /** An object with one member. */
  function OneField(name: string, value: Text): Text
  {
    Units("{\"") + (Units(name) + (Units("\":") + (value + Units("}"))))
  }

  lemma {:induction false} OneFieldRenders(name: string, v: Value)
    requires Unescaped(Units(name))
    ensures Render(Obj([], Some(Field(Units(name), v, End)))) == OneField(name, Render(v))
  {
    var key := Units(name);
    PunctuationIsSpelled();
    assert Units("{\"") == [OPEN_BRACE, QUOTE] && Units("\":") == [QUOTE, COLON];
    hide Units, Render, AfterMember, Unescaped, Field;
    FirstField([OPEN_BRACE, QUOTE] + key + [QUOTE, COLON], key, v, End);
    AfterField(key, v, Field(key, v, End));
    OneMember([OPEN_BRACE, QUOTE], key, [QUOTE, COLON], Render(v), Units("}"));
  }

  lemma {:induction false} OneMember(a: Text, b: Text, c: Text, d: Text, e: Text)
    ensures (a + b + c) + (d + e) == a + (b + (c + (d + e)))
  {
  }

  /** What an object of one member denotes. */
  lemma {:induction false} OneMemberDenotes(key: Text, v: Value)
    requires Valid(v)
    ensures var obj := Obj([], Some(Field(key, v, End)));
            && Valid(obj) && ReadCtx(obj) == SetCtxField(key, v, EMPTY_CTX)
            && ReadCaller(obj) == SetCallerField(key, v, EMPTY_CALLER)
  {
    KeyIsRead(key);
    hide SetCtxField, SetCallerField, QuotedItems, Decode, ValidStr;
    assert ValidMembers(Field(key, v, End));
    assert Skippable(Obj([], Some(Field(key, v, End))));
  }

  lemma {:induction false} AtTheFront(t: Text, suffix: Text)
    ensures [] + t == t <= t + suffix
  {
  }

  lemma {:induction false} ObjParses(obj: Value, suffix: Text)
    requires Valid(obj)
    ensures ParseCtx(Render(obj) + suffix) == Expect(ReadCtx(obj), |Render(obj)|)
    ensures ParseCaller(Render(obj) + suffix, 0) == Expect(ReadCaller(obj), |Render(obj)|)
  {
    hide ParseCtx, ParseCaller, Render, ReadCtx, ReadCaller, At, Skippable;
    var t := Render(obj);
    AtTheFront(t, suffix);
    AtFront(t + suffix, t);
    CtxParses(t + suffix, [], obj);
    ReadsCaller(t + suffix, 0, [], obj);
  }

  lemma {:induction false} OneFieldReads(name: string, v: Value, suffix: Text)
    requires Unescaped(Units(name)) && Valid(v)
    ensures var text := OneField(name, Render(v));
            ParseCtx(text + suffix) == Expect(SetCtxField(Units(name), v, EMPTY_CTX), |text|)
  {
    var obj := Obj([], Some(Field(Units(name), v, End)));
    OneFieldRenders(name, v);
    OneMemberDenotes(Units(name), v);
    ObjParses(obj, suffix);
    hide *;
  }

  /** A string field of the context, alone, sets its member and no other. */
  lemma {:induction false} TextFieldsSetTheirMembers(s: Text, suffix: Text)
    ensures var t := OneField("wrap", Quote(s)); ParseCtx(t + suffix) == Ok(RuleCtx(s, [], [], [], []), |t|)
    ensures var t := OneField("joined_argv", Quote(s)); ParseCtx(t + suffix) == Ok(RuleCtx([], s, [], [], []), |t|)
    ensures var t := OneField("cwd", Quote(s)); ParseCtx(t + suffix) == Ok(RuleCtx([], [], [], s, []), |t|)
  {
    NamesAreUnescaped();
    NamesAreSpelled();
    FieldNamesDiffer();
    StrValueReads(s);
    var v := StrValue(s);
    assert SetCtxField(WRAP, v, EMPTY_CTX) == Some(RuleCtx(s, [], [], [], []));
    assert SetCtxField(JOINED_ARGV, v, EMPTY_CTX) == Some(RuleCtx([], s, [], [], []));
    assert SetCtxField(CWD, v, EMPTY_CTX) == Some(RuleCtx([], [], [], s, []));
    hide Units, Render, OneField, ParseCtx, SetCtxField, StrValue, Valid, Unescaped;
    StringRenders(s);
    OneFieldReads("wrap", v, suffix);
    OneFieldReads("joined_argv", v, suffix);
    OneFieldReads("cwd", v, suffix);
  }

  /** And so does a list. */
  lemma {:induction false} ListFieldsSetTheirMembers(ss: seq<Text>, cs: seq<HostCaller>, suffix: Text)
    ensures var t := OneField("callers", Units("[") + (Listed(CallerTexts(cs)) + Units("]")));
            ParseCtx(t + suffix) == Ok(RuleCtx([], [], SeenCallers(cs), [], []), |t|)
    ensures var t := OneField("secrets", Units("[") + (Listed(Quotes(ss)) + Units("]")));
            ParseCtx(t + suffix) == Ok(RuleCtx([], [], [], [], ss), |t|)
  {
    NamesAreUnescaped();
    NamesAreSpelled();
    FieldNamesDiffer();
    PrintedStringsRead(ss);
    PrintedCallersValueReads(cs, LeftOut);
    var a, b := PrintCallers(cs, LeftOut), PrintStrings(ss);
    assert SetCtxField(CALLERS, a, EMPTY_CTX) == Some(RuleCtx([], [], SeenCallers(cs), [], []));
    assert SetCtxField(SECRETS, b, EMPTY_CTX) == Some(RuleCtx([], [], [], [], ss));
    hide Units, Render, OneField, ParseCtx, SetCtxField, PrintCallers, PrintStrings, Valid, Unescaped;
    ArraysRender(ss, cs);
    OneFieldReads("callers", a, suffix);
    OneFieldReads("secrets", b, suffix);
  }

  lemma {:induction false} OneCallerFieldReads(name: string, s: Text, suffix: Text)
    requires Unescaped(Units(name)) && Valid(StrValue(s))
    ensures var text := OneField(name, Quote(s));
            ParseCaller(text + suffix, 0) == Expect(SetCallerField(Units(name), StrValue(s), EMPTY_CALLER), |text|)
  {
    var obj := Obj([], Some(Field(Units(name), StrValue(s), End)));
    StringRenders(s);
    OneFieldRenders(name, StrValue(s));
    OneMemberDenotes(Units(name), StrValue(s));
    ObjParses(obj, suffix);
    hide *;
  }

  /** Each of the three fields of a caller, alone, sets its member of the caller. */
  lemma {:induction false} CallerFieldsSetTheirMembers(s: Text, suffix: Text)
    ensures var t := OneField("name", Quote(s)); ParseCaller(t + suffix, 0) == Ok(Caller(s, [], []), |t|)
    ensures var t := OneField("command", Quote(s)); ParseCaller(t + suffix, 0) == Ok(Caller([], s, []), |t|)
    ensures var t := OneField("exe", Quote(s)); ParseCaller(t + suffix, 0) == Ok(Caller([], [], s), |t|)
  {
    NamesAreUnescaped();
    NamesAreSpelled();
    StrValueReads(s);
    var v := StrValue(s);
    assert NAME != COMMAND && COMMAND != EXE && NAME != EXE;
    assert SetCallerField(NAME, v, EMPTY_CALLER) == Some(Caller(s, [], []));
    assert SetCallerField(COMMAND, v, EMPTY_CALLER) == Some(Caller([], s, []));
    assert SetCallerField(EXE, v, EMPTY_CALLER) == Some(Caller([], [], s));
    hide Units, OneField, ParseCaller, SetCallerField, StrValue, Valid, Unescaped;
    OneCallerFieldReads("name", s, suffix);
    OneCallerFieldReads("command", s, suffix);
    OneCallerFieldReads("exe", s, suffix);
  }
}
