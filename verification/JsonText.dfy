/** Every rendering of every JSON value (RFC 8259), and what the rule parser makes of it. */
module JsonText {
  import opened Common
  import opened RuleJson

  // ---------------------------------------------------------------------
  // Renderings: the syntax tree keeps each choice a writer may make
  // ---------------------------------------------------------------------

  ghost predicate AllWs(w: Text)
  {
    forall k | 0 <= k < |w| :: IsWs(w[k])
  }

  type Ws = w: Text | AllWs(w) witness []

  /** One character of a string literal: itself, a one-letter escape, or `\u` and four digits. */
  datatype StrItem = Raw(u: Unit) | Short(e: Unit) | Long(hex: Text) {
    ghost predicate Valid()
    {
      match this
      case Raw(u) => u != QUOTE && u != BACKSLASH
      case Short(e) => Escaped(e).Some?
      case Long(hex) => |hex| == 4 && forall k | 0 <= k < 4 :: IsHexDigit(hex[k])
    }

    ghost function Render(): Text
    {
      match this
      case Raw(u) => [u]
      case Short(e) => [BACKSLASH, e]
      case Long(hex) => [BACKSLASH, 0x75] + hex
    }

    ghost function Value(): Unit
      requires Valid()
    {
      match this
      case Raw(u) => u
      case Short(e) => Escaped(e).value
      case Long(hex) => HexValue(hex)
    }
  }

  type StrLit = seq<StrItem>

  ghost predicate ValidStr(s: StrLit)
  {
    forall k | 0 <= k < |s| :: s[k].Valid()
  }

  /** The literal from inside its quotes: the items and the closing quote. */
  ghost function RenderBody(s: StrLit): Text
  {
    if s == [] then [QUOTE] else s[0].Render() + RenderBody(s[1..])
  }

  ghost function RenderStr(s: StrLit): Text
  {
    [QUOTE] + RenderBody(s)
  }

  ghost function Decode(s: StrLit): Text
    requires ValidStr(s)
  {
    if s == [] then [] else [s[0].Value()] + Decode(s[1..])
  }

  /** What follows an element of a container: its end, or a comma and more elements. */
  datatype Tail<+T> = End | Comma(before: Ws, rest: T)

  datatype Value =
    | Str(s: StrLit)
    | Literal(t: Text)
    | Arr(open: Ws, items: Option<Items>)
    | Obj(open: Ws, members: Option<Members>)

  datatype Items = Items(v: Value, after: Ws, tail: Tail<Items>)

  datatype Members = Members(key: StrLit, colon: Ws, gap: Ws, v: Value, after: Ws, tail: Tail<Members>)

  /** `true`, `false`, `null` and every number are runs of characters no delimiter interrupts. */
  ghost predicate ValidLiteral(t: Text)
  {
    && t != []
    && t[0] != QUOTE && t[0] != OPEN_BRACE && t[0] != OPEN_BRACKET
    && forall k | 0 <= k < |t| :: !IsDelimiter(t[k])
  }

  /** A number: an integer part, and optionally a fraction and an exponent. */
  datatype Number = Number(negative: bool, whole: Text, frac: Option<Text>, exp: Option<Exponent>) {
    ghost predicate Valid()
    {
      && Digits(whole) && (whole[0] == 0x30 ==> |whole| == 1)
      && (frac.Some? ==> Digits(frac.value))
      && (exp.Some? ==> (exp.value.mark == 0x65 || exp.value.mark == 0x45) && Digits(exp.value.digits))
    }

    ghost function Render(): Text
    {
      (if negative then [0x2d] else []) + (whole +
        ((if frac.Some? then [0x2e] + frac.value else []) +
         (if exp.Some? then [exp.value.mark] + (exp.value.Sign() + exp.value.digits) else [])))
    }
  }

  datatype Exponent = Exponent(mark: Unit, sign: Option<bool>, digits: Text) {
    ghost function Sign(): Text
    {
      match sign case None => [] case Some(minus) => [if minus then 0x2d else 0x2b]
    }
  }

  ghost predicate Digits(t: Text)
  {
    t != [] && forall k | 0 <= k < |t| :: 0x30 <= t[k] <= 0x39
  }

  ghost predicate Unbroken(t: Text)
  {
    forall k | 0 <= k < |t| :: !IsDelimiter(t[k]) && t[k] != QUOTE && t[k] != OPEN_BRACE && t[k] != OPEN_BRACKET
  }

  lemma {:induction false} UnbrokenBoth(a: Text, b: Text)
    requires Unbroken(a) && Unbroken(b)
    ensures Unbroken(a + b)
  {
  }

  /** Every number of RFC 8259 section 6 is one literal run. */
  lemma {:induction false} NumbersAreLiterals(n: Number)
    requires n.Valid()
    ensures ValidLiteral(n.Render())
  {
    var frac := if n.frac.Some? then [0x2e] + n.frac.value else [];
    var exp := if n.exp.Some? then [n.exp.value.mark] + (n.exp.value.Sign() + n.exp.value.digits) else [];
    UnbrokenBoth(frac, exp);
    UnbrokenBoth(n.whole, frac + exp);
    UnbrokenBoth(if n.negative then [0x2d] else [], n.whole + (frac + exp));
    assert Unbroken(n.Render()) && |n.Render()| >= |n.whole|;
  }

  /** No value at all. */
  const MISSING: Value := Literal([])

  /** What `skipValue` takes for a value: a JSON value, but with any run of characters for a literal,
      and a value inside it missing altogether where a separator follows at once. */
  ghost predicate Skippable(v: Value)
  {
    match v
    case Str(s) => ValidStr(s)
    case Literal(t) => t == [] || ValidLiteral(t)
    case Arr(_, items) =>
      items.Some? ==> ValidItems(items.value) && !(items.value.v == MISSING && items.value.tail.End?)
    case Obj(_, members) => members.Some? ==> ValidMembers(members.value)
  }

  ghost predicate Valid(v: Value)
  {
    Skippable(v) && v != MISSING
  }

  ghost predicate ValidItems(i: Items)
  {
    && Skippable(i.v) && (i.v == MISSING ==> i.after == [])
    && (i.tail.Comma? ==> ValidItems(i.tail.rest))
  }

  ghost predicate ValidMembers(m: Members)
  {
    && ValidStr(m.key) && Skippable(m.v) && (m.v == MISSING ==> m.after == [])
    && (m.tail.Comma? ==> ValidMembers(m.tail.rest))
  }

  ghost function Render(v: Value): Text
    decreases v, 0
  {
    match v
    case Str(s) => RenderStr(s)
    case Literal(t) => t
    case Arr(open, None) => [OPEN_BRACKET] + (open + [CLOSE_BRACKET])
    case Arr(open, Some(i)) => [OPEN_BRACKET] + (open + RenderItems(i))
    case Obj(open, None) => [OPEN_BRACE] + (open + [CLOSE_BRACE])
    case Obj(open, Some(m)) => [OPEN_BRACE] + (open + RenderMembers(m))
  }

  ghost function RenderItems(i: Items): Text
    decreases i, 1
  {
    Render(i.v) + (i.after + AfterItem(i))
  }

  /** The separator after an item, and whatever it separates the item from. */
  ghost function AfterItem(i: Items): Text
    decreases i, 0
  {
    match i.tail
    case End => [CLOSE_BRACKET]
    case Comma(before, rest) => [COMMA] + (before + RenderItems(rest))
  }

  ghost function RenderMembers(m: Members): Text
    decreases m, 2
  {
    RenderStr(m.key) + (m.colon + ([COLON] + RenderMemberValue(m)))
  }

  ghost function RenderMemberValue(m: Members): Text
    decreases m, 1
  {
    m.gap + (Render(m.v) + (m.after + AfterMember(m)))
  }

  ghost function AfterMember(m: Members): Text
    decreases m, 0
  {
    match m.tail
    case End => [CLOSE_BRACE]
    case Comma(before, rest) => [COMMA] + (before + RenderMembers(rest))
  }

  // ---------------------------------------------------------------------
  // What a context value means: known fields in order, everything else ignored
  // ---------------------------------------------------------------------

  ghost function ReadString(v: Value): Option<Text>
    requires Skippable(v)
  {
    if v.Str? then Some(Decode(v.s)) else None
  }

  ghost function ReadStrings(i: Items): Option<seq<Text>>
    requires ValidItems(i)
  {
    match ReadString(i.v)
    case None => None
    case Some(s) =>
      match i.tail
      case End => Some([s])
      case Comma(_, rest) =>
        match ReadStrings(rest) case Some(more) => Some([s] + more) case None => None
  }

  ghost function ReadStringArray(v: Value): Option<seq<Text>>
    requires Skippable(v)
  {
    if !v.Arr? then None else if v.items.None? then Some([]) else ReadStrings(v.items.value)
  }

  ghost function SetCallerField(key: Text, v: Value, caller: Caller): Option<Caller>
    requires Skippable(v)
  {
    var s := ReadString(v);
    if key != NAME && key != COMMAND && key != EXE then Some(caller)
    else if s.None? then None
    else if key == NAME then Some(caller.(name := s.value))
    else if key == COMMAND then Some(caller.(command := s.value))
    else Some(caller.(exe := s.value))
  }

  ghost function ReadCallerFields(m: Members, caller: Caller): Option<Caller>
    requires ValidMembers(m)
  {
    match SetCallerField(Decode(m.key), m.v, caller)
    case None => None
    case Some(c) => if m.tail.End? then Some(c) else ReadCallerFields(m.tail.rest, c)
  }

  ghost function ReadCaller(v: Value): Option<Caller>
    requires Skippable(v)
  {
    if !v.Obj? then None
    else if v.members.None? then Some(EMPTY_CALLER)
    else ReadCallerFields(v.members.value, EMPTY_CALLER)
  }

  ghost function ReadCallerItems(i: Items): Option<seq<Caller>>
    requires ValidItems(i)
  {
    match ReadCaller(i.v)
    case None => None
    case Some(c) =>
      match i.tail
      case End => Some([c])
      case Comma(_, rest) =>
        match ReadCallerItems(rest) case Some(more) => Some([c] + more) case None => None
  }

  ghost function ReadCallers(v: Value): Option<seq<Caller>>
    requires Skippable(v)
  {
    if !v.Arr? then None else if v.items.None? then Some([]) else ReadCallerItems(v.items.value)
  }

  ghost predicate IsKnownField(key: Text)
  {
    key == WRAP || key == JOINED_ARGV || key == CALLERS || key == CWD || key == SECRETS
  }

  ghost function SetCtxField(key: Text, v: Value, ctx: RuleCtx): Option<RuleCtx>
    requires Skippable(v)
  {
    if key == WRAP then
      match ReadString(v) case Some(s) => Some(ctx.(wrap := s)) case None => None
    else if key == JOINED_ARGV then
      match ReadString(v) case Some(s) => Some(ctx.(joinedArgv := s)) case None => None
    else if key == CALLERS then
      match ReadCallers(v) case Some(cs) => Some(ctx.(callers := cs)) case None => None
    else if key == CWD then
      match ReadString(v) case Some(s) => Some(ctx.(cwd := s)) case None => None
    else if key == SECRETS then
      match ReadStringArray(v) case Some(ss) => Some(ctx.(secrets := ss)) case None => None
    else Some(ctx)
  }

  ghost function ReadCtxFields(m: Members, ctx: RuleCtx): Option<RuleCtx>
    requires ValidMembers(m)
  {
    match SetCtxField(Decode(m.key), m.v, ctx)
    case None => None
    case Some(c) => if m.tail.End? then Some(c) else ReadCtxFields(m.tail.rest, c)
  }

  /** The context a JSON value denotes, `None` when it has the wrong shape. */
  ghost function ReadCtx(v: Value): Option<RuleCtx>
    requires Skippable(v)
  {
    if !v.Obj? then None
    else if v.members.None? then Some(EMPTY_CTX)
    else ReadCtxFields(v.members.value, EMPTY_CTX)
  }

  // ---------------------------------------------------------------------
  // Pieces of text
  // ---------------------------------------------------------------------

  /** `piece` lies in `text` at `pos`. */
  ghost predicate At(text: Text, pos: nat, piece: Text)
  {
    pos + |piece| <= |text| && text[pos..pos + |piece|] == piece
  }

  lemma {:induction false} AtBoth(text: Text, pos: nat, a: Text, b: Text)
    requires At(text, pos, a + b)
    ensures At(text, pos, a) && At(text, pos + |a|, b)
  {
    assert text[pos..pos + |a + b|] == a + b;
    assert text[pos..pos + |a|] == (a + b)[..|a|] == a;
    assert text[pos + |a|..pos + |a| + |b|] == (a + b)[|a|..] == b;
  }

  lemma {:induction false} AtJoin(text: Text, pos: nat, a: Text, b: Text)
    requires At(text, pos, a) && At(text, pos + |a|, b)
    ensures At(text, pos, a + b)
  {
    assert text[pos..pos + |a + b|] == text[pos..pos + |a|] + text[pos + |a|..pos + |a| + |b|];
  }

  lemma {:induction false} AtHead(text: Text, pos: nat, piece: Text)
    requires At(text, pos, piece) && piece != []
    ensures Sees(text, pos, piece[0])
  {
    assert text[pos..pos + |piece|][0] == text[pos];
  }

  /** Regroup a gap and a value in front of what follows them. */
  lemma {:induction false} AtMiddlePair(text: Text, pos: nat, gap: Text, v: Text, more: Text)
    requires At(text, pos, gap + (v + more))
    ensures At(text, pos, gap + v) && At(text, pos + |gap| + |v|, more)
  {
    hide At;
    AtBoth(text, pos, gap, v + more);
    AtBoth(text, pos + |gap|, v, more);
    AtJoin(text, pos, gap, v);
  }

  lemma {:induction false} AtPastComma(text: Text, pos: nat, after: Text, more: Text)
    requires At(text, pos, after + ([COMMA] + more))
    ensures At(text, pos + |after| + 1, more)
  {
    hide At;
    AtBoth(text, pos, after, [COMMA] + more);
    AtBoth(text, pos + |after|, [COMMA], more);
  }

  lemma {:induction false} AtMiddle(before: Text, piece: Text, suffix: Text)
    ensures At(before + piece + suffix, |before|, piece)
  {
  }

  lemma {:induction false} AtFront(text: Text, piece: Text)
    requires piece <= text
    ensures At(text, 0, piece)
  {
  }

  /** The cursor is past the whitespace when it meets something else. */
  lemma {:induction false} SkipsWs(text: Text, pos: nat, w: Text)
    requires AllWs(w) && At(text, pos, w)
    requires pos + |w| < |text| ==> !IsWs(text[pos + |w|])
    ensures SkipWs(text, pos) == pos + |w|
    decreases |w|
  {
    if w != [] {
      AtHead(text, pos, w);
      AtBoth(text, pos, w[..1], w[1..]);
      assert w == w[..1] + w[1..];
      SkipsWs(text, pos + 1, w[1..]);
    }
  }

  /** Every rendering starts with something that is not whitespace. */
  lemma {:induction false} RenderStarts(v: Value)
    requires Valid(v)
    ensures Render(v) != [] && !IsDelimiter(Render(v)[0])
    ensures v.Str? <==> Render(v)[0] == QUOTE
    ensures v.Arr? <==> Render(v)[0] == OPEN_BRACKET
    ensures v.Obj? <==> Render(v)[0] == OPEN_BRACE
  {
  }

  /** Whitespace in front of `piece` at `pos`: the cursor skips to it. */
  lemma {:induction false} SkipsTo(text: Text, pos: nat, w: Ws, piece: Text)
    requires At(text, pos, w + piece) && piece != [] && !IsWs(piece[0])
    ensures SkipWs(text, pos) == pos + |w| && At(text, pos + |w|, piece)
    ensures Sees(text, pos + |w|, piece[0])
  {
    AtBoth(text, pos, w, piece);
    AtHead(text, pos + |w|, piece);
    SkipsWs(text, pos, w);
  }

  // ---------------------------------------------------------------------
  // Strings
  // ---------------------------------------------------------------------

  /** One item of a string literal, read where it lies. */
  lemma {:induction false} ItemParses(text: Text, pos: nat, item: StrItem)
    requires item.Valid() && At(text, pos, item.Render())
    ensures StringBody(text, pos) == Prepend([item.Value()], StringBody(text, pos + |item.Render()|))
  {
    var r := item.Render();
    forall k | 0 <= k < |r|
      ensures text[pos + k] == r[k]
    {
      assert text[pos + k] == text[pos..pos + |r|][k];
    }
    assert text[pos] == r[0];
    if !item.Raw? {
      assert text[pos + 1] == r[1];
    }
    if item.Long? {
      assert text[pos + 2..pos + 6] == item.hex by {
        assert forall k | 0 <= k < 4 :: text[pos + (k + 2)] == r[k + 2] == item.hex[k];
      }
      assert forall k | pos + 2 <= k < pos + 6 :: text[k] == item.hex[k - pos - 2];
    }
  }

  lemma {:induction false} BodyParses(text: Text, pos: nat, s: StrLit)
    requires ValidStr(s) && At(text, pos, RenderBody(s))
    ensures StringBody(text, pos) == Ok(Decode(s), pos + |RenderBody(s)|)
    decreases |s|
  {
    if s == [] {
      AtHead(text, pos, RenderBody(s));
    } else {
      var item, rest := s[0], s[1..];
      hide At, StringBody, StrItem.Render, StrItem.Value, StrItem.Valid;
      AtBoth(text, pos, item.Render(), RenderBody(rest));
      ItemParses(text, pos, item);
      BodyParses(text, pos + |item.Render()|, rest);
      assert RenderBody(s) == item.Render() + RenderBody(rest);
    }
  }

  /** A string literal in any rendering, anywhere in a text, is read as what it means and
      the cursor stops right after it. */
  lemma {:induction false} StringParses(text: Text, pos: nat, w: Ws, s: StrLit)
    requires ValidStr(s) && At(text, pos, w + RenderStr(s))
    ensures ParseString(text, pos) == Ok(Decode(s), pos + |w| + |RenderStr(s)|)
  {
    hide At, AllWs, SkipWs, RenderBody, StringBody;
    SkipsTo(text, pos, w, RenderStr(s));
    AtBoth(text, pos + |w|, [QUOTE], RenderBody(s));
    BodyParses(text, pos + |w| + 1, s);
  }

  // ---------------------------------------------------------------------
  // Skipping a value
  // ---------------------------------------------------------------------

  /** A bare literal is delimited by what follows it; strings and containers delimit themselves. */
  ghost predicate Ends(v: Value, text: Text, end: nat)
  {
    && (v.Literal? && end < |text| ==> IsDelimiter(text[end]))
    && Bounds(v, text, end)
  }

  /** Where a value is missing, a separator stands. */
  ghost predicate Bounds(v: Value, text: Text, end: nat)
  {
    v == MISSING ==> end < |text| && IsDelimiter(text[end]) && !IsWs(text[end])
  }

  /** What the cursor meets past the whitespace tells what kind of value is there. */
  lemma {:induction false} Begins(text: Text, pos: nat, w: Ws, v: Value)
    requires Skippable(v) && At(text, pos, w + Render(v)) && Bounds(v, text, pos + |w| + |Render(v)|)
    ensures var q := pos + |w|;
            && SkipWs(text, pos) == SkipWs(text, q) == q && q < |text| && At(text, q, Render(v))
            && (v.Str? <==> text[q] == QUOTE)
            && (v.Arr? <==> text[q] == OPEN_BRACKET)
            && (v.Obj? <==> text[q] == OPEN_BRACE)
  {
    AtBoth(text, pos, w, Render(v));
    if v == MISSING {
      SkipsWs(text, pos, w);
    } else {
      RenderStarts(v);
      hide Render, Skippable, AllWs;
      SkipsTo(text, pos, w, Render(v));
    }
  }

  lemma {:induction false} LiteralEnds(text: Text, pos: nat, t: Text)
    requires At(text, pos, t) && forall k | 0 <= k < |t| :: !IsDelimiter(t[k])
    requires pos + |t| < |text| ==> IsDelimiter(text[pos + |t|])
    ensures LiteralEnd(text, pos) == pos + |t|
    decreases |t|
  {
    if t != [] {
      AtHead(text, pos, t);
      assert t == t[..1] + t[1..];
      AtBoth(text, pos, t[..1], t[1..]);
      LiteralEnds(text, pos + 1, t[1..]);
    }
  }

  /** What follows an element, read as a separator. */
  lemma {:induction false} SeparatorParses(text: Text, pos: nat, after: Ws, closer: Unit, more: Text)
    requires closer == CLOSE_BRACKET || closer == CLOSE_BRACE
    requires At(text, pos, after + more) && more != [] && (more[0] == closer || more[0] == COMMA)
    ensures Separator(text, pos, closer) == Ok(more[0] == closer, pos + |after| + 1)
    ensures IsDelimiter(text[pos]) && (after == [] ==> !IsWs(text[pos]))
  {
    SkipsTo(text, pos, after, more);
    if after != [] {
      AtBoth(text, pos, after, more);
      AtHead(text, pos, after);
    }
  }

  /** The front of a container, read as its opening. */
  lemma {:induction false} OpeningParses(text: Text, pos: nat, w: Ws, opener: Unit, open: Ws, closer: Unit, inner: Text)
    requires !IsWs(opener) && !IsWs(closer)
    requires At(text, pos, w + ([opener] + (open + inner))) && inner != [] && !IsWs(inner[0])
    ensures var u := pos + |w| + 1 + |open|;
            Opening(text, pos, opener, closer) == (if inner[0] == closer then Ok(true, u + 1) else Ok(false, u))
    ensures At(text, pos + |w| + 1 + |open|, inner)
  {
    hide At, SkipWs, AllWs;
    SkipsTo(text, pos, w, [opener] + (open + inner));
    AtBoth(text, pos + |w|, [opener], open + inner);
    SkipsTo(text, pos + |w| + 1, open, inner);
  }

  lemma {:induction false} KeyParses(text: Text, pos: nat, w: Ws, key: StrLit, colon: Ws, more: Text)
    requires ValidStr(key) && At(text, pos, w + (RenderStr(key) + (colon + ([COLON] + more))))
    ensures var q := pos + |w| + |RenderStr(key)| + |colon| + 1;
            ParseKey(text, pos) == Ok(Decode(key), q) && At(text, q, more)
  {
    hide At, ParseString, RenderStr, SkipWs;
    var k := RenderStr(key);
    AtBoth(text, pos, w, k + (colon + ([COLON] + more)));
    AtBoth(text, pos + |w|, k, colon + ([COLON] + more));
    AtJoin(text, pos, w, k);
    StringParses(text, pos, w, key);
    SkipsTo(text, pos + |w| + |k|, colon, [COLON] + more);
    AtBoth(text, pos + |w| + |k| + |colon|, [COLON], more);
  }

  /** `skipValue` consumes exactly one value, whatever the value and however it is written. */
  lemma {:induction false} SkipsOneValue(text: Text, pos: nat, w: Ws, v: Value)
    requires Skippable(v) && At(text, pos, w + Render(v))
    requires Ends(v, text, pos + |w| + |Render(v)|)
    ensures SkipValue(text, pos) == Ok((), pos + |w| + |Render(v)|)
    decreases v, 1
  {
    hide At, StringBody, SkipWs, ParseString, Opening, LiteralEnd, ValidItems, ValidMembers, RenderItems,
      RenderMembers, RenderStr, SkipItems, SkipMembers;
    Begins(text, pos, w, v);
    var q := pos + |w|;
    assert [] + Render(v) == Render(v);
    match v {
      case Str(s) =>
        StringParses(text, q, [], s);
      case Literal(t) =>
        LiteralEnds(text, q, t);
      case Arr(open, items) =>
        hide Render;
        ArrayOpens(text, q, open, items);
        if items.Some? {
          SkipsItems(text, q + 1 + |open|, [], items.value);
        }
      case Obj(open, members) =>
        hide Render;
        ObjectOpens(text, q, open, members);
        if members.Some? {
          SkipsMembers(text, q + 1 + |open|, [], members.value);
        }
    }
  }

  lemma {:induction false} ArrayOpens(text: Text, pos: nat, open: Ws, items: Option<Items>)
    requires Skippable(Arr(open, items)) && At(text, pos, Render(Arr(open, items)))
    ensures var u := pos + 1 + |open|;
            && Opening(text, pos, OPEN_BRACKET, CLOSE_BRACKET) ==
               (if items.None? then Ok(true, u + 1) else Ok(false, u))
            && (items.Some? ==> At(text, u, [] + RenderItems(items.value)))
            && pos + |Render(Arr(open, items))| == u + (if items.None? then 1 else |RenderItems(items.value)|)
  {
    hide At, Opening, RenderItems;
    var inner := if items.None? then [CLOSE_BRACKET] else RenderItems(items.value);
    if items.Some? {
      ItemsStart(items.value);
    }
    assert [] + Render(Arr(open, items)) == Render(Arr(open, items)) && [] + inner == inner;
    OpeningParses(text, pos, [], OPEN_BRACKET, open, CLOSE_BRACKET, inner);
  }

  lemma {:induction false} ItemsStart(i: Items)
    requires ValidItems(i) && !(i.v == MISSING && i.tail.End?)
    ensures RenderItems(i) != [] && !IsWs(RenderItems(i)[0]) && RenderItems(i)[0] != CLOSE_BRACKET
  {
    if i.v == MISSING {
      AfterItemIs(i);
      hide AfterItem;
      assert RenderItems(i) == AfterItem(i);
    } else {
      RenderStarts(i.v);
    }
  }

  lemma {:induction false} ObjectOpens(text: Text, pos: nat, open: Ws, members: Option<Members>)
    requires Skippable(Obj(open, members)) && At(text, pos, Render(Obj(open, members)))
    ensures var u := pos + 1 + |open|;
            && Opening(text, pos, OPEN_BRACE, CLOSE_BRACE) ==
               (if members.None? then Ok(true, u + 1) else Ok(false, u))
            && (members.Some? ==> At(text, u, [] + RenderMembers(members.value)))
            && pos + |Render(Obj(open, members))| == u + (if members.None? then 1 else |RenderMembers(members.value)|)
  {
    hide At, Opening, RenderMembers;
    var inner := if members.None? then [CLOSE_BRACE] else RenderMembers(members.value);
    if members.Some? {
      MembersStart(members.value);
    }
    assert [] + Render(Obj(open, members)) == Render(Obj(open, members)) && [] + inner == inner;
    OpeningParses(text, pos, [], OPEN_BRACE, open, CLOSE_BRACE, inner);
  }

  lemma {:induction false} MembersStart(m: Members)
    ensures RenderMembers(m) != [] && RenderMembers(m)[0] == QUOTE
  {
  }

  lemma {:induction false} AfterItemIs(i: Items)
    ensures AfterItem(i) != [] && AfterItem(i)[0] == (if i.tail.End? then CLOSE_BRACKET else COMMA)
    ensures i.tail.End? ==> |AfterItem(i)| == 1
    ensures i.tail.Comma? ==> AfterItem(i) == [COMMA] + (i.tail.before + RenderItems(i.tail.rest))
  {
  }

  lemma {:induction false} AfterMemberIs(m: Members)
    ensures AfterMember(m) != [] && AfterMember(m)[0] == (if m.tail.End? then CLOSE_BRACE else COMMA)
    ensures m.tail.End? ==> |AfterMember(m)| == 1
    ensures m.tail.Comma? ==> AfterMember(m) == [COMMA] + (m.tail.before + RenderMembers(m.tail.rest))
  {
  }

  lemma {:induction false} MemberLengths(m: Members)
    ensures |RenderMembers(m)|
            == |RenderStr(m.key)| + |m.colon| + 1 + |m.gap| + |Render(m.v)| + |m.after| + |AfterMember(m)|
  {
  }

  /** An item of an array, up to and past its separator. */
  lemma {:induction false} ItemSeparates(text: Text, pos: nat, i: Items)
    requires ValidItems(i) && At(text, pos, RenderItems(i))
    ensures var p := pos + |Render(i.v)|;
            && At(text, pos, Render(i.v)) && Ends(i.v, text, p)
            && Separator(text, p, CLOSE_BRACKET) == Ok(i.tail.End?, p + |i.after| + 1)
            && (i.tail.End? ==> p + |i.after| + 1 == pos + |RenderItems(i)|)
            && (i.tail.Comma? ==> At(text, p + |i.after| + 1, i.tail.before + RenderItems(i.tail.rest)))
            && (i.tail.Comma? ==> p + |i.after| + 1 + |i.tail.before| + |RenderItems(i.tail.rest)|
                                  == pos + |RenderItems(i)|)
  {
    hide At, Render, Separator, AfterItem;
    AfterItemIs(i);
    AtBoth(text, pos, Render(i.v), i.after + AfterItem(i));
    var p := pos + |Render(i.v)|;
    SeparatorParses(text, p, i.after, CLOSE_BRACKET, AfterItem(i));
    if i.tail.Comma? {
      AtPastComma(text, p, i.after, i.tail.before + RenderItems(i.tail.rest));
    }
  }

  lemma {:induction false} SkipsItems(text: Text, pos: nat, w: Ws, i: Items)
    requires ValidItems(i) && At(text, pos, w + RenderItems(i))
    ensures SkipItems(text, pos) == Ok((), pos + |w| + |RenderItems(i)|)
    decreases i, 2
  {
    hide At, Render, RenderItems, Separator, SkipValue, Ends, Skippable;
    AtBoth(text, pos, w, RenderItems(i));
    ItemSeparates(text, pos + |w|, i);
    AtJoin(text, pos, w, Render(i.v));
    SkipsOneValue(text, pos, w, i.v);
    if i.tail.Comma? {
      SkipsItems(text, pos + |w| + |Render(i.v)| + |i.after| + 1, i.tail.before, i.tail.rest);
    }
  }

  /** The cursor after the key and colon of a member. */
  ghost function ValueAt(pos: nat, m: Members): nat
  {
    pos + |RenderStr(m.key)| + |m.colon| + 1
  }

  /** A member of an object: its key, its value in place, and its separator. */
  lemma {:induction false} MemberSeparates(text: Text, pos: nat, w: Ws, m: Members)
    requires ValidMembers(m) && At(text, pos, w + RenderMembers(m))
    ensures var u := ValueAt(pos + |w|, m);
            var p := u + |m.gap| + |Render(m.v)|;
            && ParseKey(text, pos) == Ok(Decode(m.key), u)
            && At(text, u, m.gap + Render(m.v)) && Ends(m.v, text, p)
            && Separator(text, p, CLOSE_BRACE) == Ok(m.tail.End?, p + |m.after| + 1)
            && (m.tail.End? ==> p + |m.after| + 1 == pos + |w| + |RenderMembers(m)|)
            && (m.tail.Comma? ==> At(text, p + |m.after| + 1, m.tail.before + RenderMembers(m.tail.rest)))
            && (m.tail.Comma? ==> p + |m.after| + 1 + |m.tail.before| + |RenderMembers(m.tail.rest)|
                                  == pos + |w| + |RenderMembers(m)|)
  {
    hide At, Render, Separator, ParseKey, RenderStr, AfterMember, RenderMemberValue;
    AfterMemberIs(m);
    MemberLengths(m);
    KeyParses(text, pos, w, m.key, m.colon, RenderMemberValue(m));
    MemberValueSeparates(text, ValueAt(pos + |w|, m), m);
  }

  lemma {:induction false} MemberValueSeparates(text: Text, u: nat, m: Members)
    requires m.v == MISSING ==> m.after == []
    requires At(text, u, RenderMemberValue(m))
    ensures var p := u + |m.gap| + |Render(m.v)|;
            && At(text, u, m.gap + Render(m.v)) && Ends(m.v, text, p)
            && Separator(text, p, CLOSE_BRACE) == Ok(m.tail.End?, p + |m.after| + 1)
            && (m.tail.Comma? ==> At(text, p + |m.after| + 1, m.tail.before + RenderMembers(m.tail.rest)))
  {
    hide At, Render, Separator, RenderMembers, AfterMember;
    AfterMemberIs(m);
    AtMiddlePair(text, u, m.gap, Render(m.v), m.after + AfterMember(m));
    var p := u + |m.gap| + |Render(m.v)|;
    SeparatorParses(text, p, m.after, CLOSE_BRACE, AfterMember(m));
    if m.tail.Comma? {
      AtPastComma(text, p, m.after, m.tail.before + RenderMembers(m.tail.rest));
    }
  }

  lemma {:induction false} SkipsMembers(text: Text, pos: nat, w: Ws, m: Members)
    requires ValidMembers(m) && At(text, pos, w + RenderMembers(m))
    ensures SkipMembers(text, pos) == Ok((), pos + |w| + |RenderMembers(m)|)
    decreases m, 2
  {
    hide At, Render, RenderMembers, Separator, SkipValue, Ends, Skippable, ParseKey, ValueAt;
    MemberSeparates(text, pos, w, m);
    var u := ValueAt(pos + |w|, m);
    SkipsOneValue(text, u, m.gap, m.v);
    if m.tail.Comma? {
      SkipsMembers(text, u + |m.gap| + |Render(m.v)| + |m.after| + 1, m.tail.before, m.tail.rest);
    }
  }
}
