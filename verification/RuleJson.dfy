/** The rule ABI's JSON support, packages/secreq-rule/assembly/json.ts and abi.ts:
    what each parse step reads, and the cursor class that reads it. */
module RuleJson {
  import opened Common

  /** One UTF-16 code unit. */
  type Unit = u: int | 0 <= u < 0x1_0000

  type Text = seq<Unit>

  const QUOTE: Unit := 0x22
  const BACKSLASH: Unit := 0x5c
  const COMMA: Unit := 0x2c
  const COLON: Unit := 0x3a
  const OPEN_BRACKET: Unit := 0x5b
  const CLOSE_BRACKET: Unit := 0x5d
  const OPEN_BRACE: Unit := 0x7b
  const CLOSE_BRACE: Unit := 0x7d

  /** The context field names, spelled out in code units. */
  const NAME: Text := [0x6e, 0x61, 0x6d, 0x65]
  const COMMAND: Text := [0x63, 0x6f, 0x6d, 0x6d, 0x61, 0x6e, 0x64]
  const EXE: Text := [0x65, 0x78, 0x65]
  const WRAP: Text := [0x77, 0x72, 0x61, 0x70]
  const JOINED_ARGV: Text := [0x6a, 0x6f, 0x69, 0x6e, 0x65, 0x64, 0x5f, 0x61, 0x72, 0x67, 0x76]
  const CALLERS: Text := [0x63, 0x61, 0x6c, 0x6c, 0x65, 0x72, 0x73]
  const CWD: Text := [0x63, 0x77, 0x64]
  const SECRETS: Text := [0x73, 0x65, 0x63, 0x72, 0x65, 0x74, 0x73]

  datatype Caller = Caller(name: Text, command: Text, exe: Text)

  datatype RuleCtx = RuleCtx(wrap: Text, joinedArgv: Text, callers: seq<Caller>, cwd: Text, secrets: seq<Text>)

  const EMPTY_CALLER := Caller([], [], [])
  const EMPTY_CTX := RuleCtx([], [], [], [], [])

  predicate IsWs(c: Unit)
  {
    c == 0x20 || c == 0x09 || c == 0x0a || c == 0x0d
  }

  /** A unit that ends a run of literal characters. */
  predicate IsDelimiter(c: Unit)
  {
    c == COMMA || c == CLOSE_BRACKET || c == CLOSE_BRACE || IsWs(c)
  }

  predicate IsHexDigit(c: Unit)
  {
    0x30 <= c <= 0x39 || 0x61 <= c <= 0x66 || 0x41 <= c <= 0x46
  }

  function HexDigit(c: Unit): (d: int)
    requires IsHexDigit(c)
    ensures 0 <= d < 16
  {
    if c <= 0x39 then c - 0x30 else if c >= 0x61 then c - 0x61 + 10 else c - 0x41 + 10
  }

  /** What `\` followed by `e` stands for, for the one-letter escapes. */
  function Escaped(e: Unit): Option<Unit>
  {
    if e == QUOTE || e == BACKSLASH || e == 0x2f then Some(e)
    else if e == 0x62 then Some(0x08)
    else if e == 0x66 then Some(0x0c)
    else if e == 0x6e then Some(0x0a)
    else if e == 0x72 then Some(0x0d)
    else if e == 0x74 then Some(0x09)
    else None
  }

  // ---------------------------------------------------------------------
  // What one parse step reads from `text` at `pos`
  // ---------------------------------------------------------------------

  datatype Parsed<+T> = Ok(value: T, pos: nat) | Abort

  /** The cursor moved forward and stayed inside the text. */
  ghost predicate Forward<T>(r: Parsed<T>, text: Text, pos: nat)
  {
    r.Ok? ==> pos < r.pos <= |text|
  }

  function SkipWs(text: Text, pos: nat): (q: nat)
    requires pos <= |text|
    ensures pos <= q <= |text|
    decreases |text| - pos
  {
    if pos < |text| && IsWs(text[pos]) then SkipWs(text, pos + 1) else pos
  }

  /** The unit at the cursor is `c`. */
  predicate Sees(text: Text, pos: nat, c: Unit)
  {
    pos < |text| && text[pos] == c
  }

  function Hex4(text: Text, pos: nat): (r: Parsed<Unit>)
    requires pos <= |text|
    ensures Forward(r, text, pos)
  {
    if pos + 4 <= |text| && forall k | pos <= k < pos + 4 :: IsHexDigit(text[k]) then
      Ok(HexValue(text[pos..pos + 4]), pos + 4)
    else Abort
  }

  /** Big-endian value of a run of hex digits. */
  function HexValue(h: Text): (v: nat)
    requires |h| <= 4 && forall k | 0 <= k < |h| :: IsHexDigit(h[k])
    ensures |h| == 0 ==> v == 0
    ensures |h| == 1 ==> v < 0x10
    ensures |h| == 2 ==> v < 0x100
    ensures |h| == 3 ==> v < 0x1000
    ensures |h| == 4 ==> v < 0x1_0000
  {
    if h == [] then 0 else HexValue(h[..|h| - 1]) * 16 + HexDigit(h[|h| - 1])
  }

  /** The rest of a string literal, from inside its quotes. */
  function StringBody(text: Text, pos: nat): (r: Parsed<Text>)
    requires pos <= |text|
    ensures Forward(r, text, pos)
    decreases |text| - pos
  {
    if pos >= |text| then Abort
    else if text[pos] == QUOTE then Ok([], pos + 1)
    else if text[pos] != BACKSLASH then Prepend([text[pos]], StringBody(text, pos + 1))
    else if pos + 1 >= |text| then Abort
    else if text[pos + 1] == 0x75 then
      match Hex4(text, pos + 2)
      case Ok(v, q) => Prepend([v], StringBody(text, q))
      case Abort => Abort
    else
      match Escaped(text[pos + 1])
      case Some(v) => Prepend([v], StringBody(text, pos + 2))
      case None => Abort
  }

  function Prepend<T>(head: seq<T>, r: Parsed<seq<T>>): Parsed<seq<T>>
  {
    match r case Ok(v, q) => Ok(head + v, q) case Abort => Abort
  }

  function ParseString(text: Text, pos: nat): (r: Parsed<Text>)
    requires pos <= |text|
    ensures Forward(r, text, pos)
  {
    var q := SkipWs(text, pos);
    if Sees(text, q, QUOTE) then StringBody(text, q + 1) else Abort
  }

  /** After an element: past a comma (`false`), past the closer (`true`), or abort. */
  function Separator(text: Text, pos: nat, closer: Unit): (r: Parsed<bool>)
    requires pos <= |text|
    ensures Forward(r, text, pos)
  {
    var q := SkipWs(text, pos);
    if Sees(text, q, closer) then Ok(true, q + 1)
    else if Sees(text, q, COMMA) then Ok(false, q + 1)
    else Abort
  }

  /** At the front of a container: past the opener and its whitespace, and past the closer
      too (`true`) when the container is empty. */
  function Opening(text: Text, pos: nat, opener: Unit, closer: Unit): (r: Parsed<bool>)
    requires pos <= |text|
    ensures Forward(r, text, pos)
  {
    var q := SkipWs(text, pos);
    if !Sees(text, q, opener) then Abort
    else
      var u := SkipWs(text, q + 1);
      if u >= |text| then Abort
      else if text[u] == closer then Ok(true, u + 1)
      else Ok(false, u)
  }

  /** A field name and the colon after it. */
  function ParseKey(text: Text, pos: nat): (r: Parsed<Text>)
    requires pos <= |text|
    ensures Forward(r, text, pos)
  {
    match ParseString(text, pos)
    case Abort => Abort
    case Ok(key, p) =>
      var q := SkipWs(text, p);
      if Sees(text, q, COLON) then Ok(key, q + 1) else Abort
  }

  function StringItems(text: Text, pos: nat): (r: Parsed<seq<Text>>)
    requires pos <= |text|
    ensures Forward(r, text, pos)
    decreases |text| - pos
  {
    match ParseString(text, pos)
    case Abort => Abort
    case Ok(s, p) =>
      match Separator(text, p, CLOSE_BRACKET)
      case Abort => Abort
      case Ok(done, q) => if done then Ok([s], q) else Prepend([s], StringItems(text, q))
  }

  function ParseStringArray(text: Text, pos: nat): (r: Parsed<seq<Text>>)
    requires pos <= |text|
    ensures Forward(r, text, pos)
  {
    match Opening(text, pos, OPEN_BRACKET, CLOSE_BRACKET)
    case Abort => Abort
    case Ok(done, q) => if done then Ok([], q) else StringItems(text, q)
  }

  /** Where a run of literal characters ends. */
  function LiteralEnd(text: Text, pos: nat): (q: nat)
    requires pos <= |text|
    ensures pos <= q <= |text|
    decreases |text| - pos
  {
    if pos < |text| && !IsDelimiter(text[pos]) then LiteralEnd(text, pos + 1) else pos
  }

  /** The cursor never moves back: `skipValue` may consume nothing. */
  ghost predicate NotBack(r: Parsed<()>, text: Text, pos: nat)
  {
    r.Ok? ==> pos <= r.pos <= |text|
  }

  function SkipValue(text: Text, pos: nat): (r: Parsed<()>)
    requires pos <= |text|
    ensures NotBack(r, text, pos)
    decreases |text| - pos, 0
  {
    var q := SkipWs(text, pos);
    if q >= |text| then Abort
    else if text[q] == QUOTE then
      match ParseString(text, q) case Ok(_, p) => Ok((), p) case Abort => Abort
    else if text[q] == OPEN_BRACE then
      match Opening(text, q, OPEN_BRACE, CLOSE_BRACE)
      case Abort => Abort
      case Ok(done, p) => if done then Ok((), p) else SkipMembers(text, p)
    else if text[q] == OPEN_BRACKET then
      match Opening(text, q, OPEN_BRACKET, CLOSE_BRACKET)
      case Abort => Abort
      case Ok(done, p) => if done then Ok((), p) else SkipItems(text, p)
    else Ok((), LiteralEnd(text, q))
  }

  function SkipMembers(text: Text, pos: nat): (r: Parsed<()>)
    requires pos <= |text|
    ensures Forward(r, text, pos)
    decreases |text| - pos, 1
  {
    match ParseKey(text, pos)
    case Abort => Abort
    case Ok(_, p) =>
      match SkipValue(text, p)
      case Abort => Abort
      case Ok(_, v) =>
        match Separator(text, v, CLOSE_BRACE)
        case Abort => Abort
        case Ok(done, q) => if done then Ok((), q) else SkipMembers(text, q)
  }

  function SkipItems(text: Text, pos: nat): (r: Parsed<()>)
    requires pos <= |text|
    ensures Forward(r, text, pos)
    decreases |text| - pos, 1
  {
    match SkipValue(text, pos)
    case Abort => Abort
    case Ok(_, v) =>
      match Separator(text, v, CLOSE_BRACKET)
      case Abort => Abort
      case Ok(done, q) => if done then Ok((), q) else SkipItems(text, q)
  }

  /** Read the value of a caller field into the caller being built. */
  function CallerField(text: Text, pos: nat, key: Text, caller: Caller): (r: Parsed<Caller>)
    requires pos <= |text|
    ensures r.Ok? ==> pos <= r.pos <= |text|
  {
    if key == NAME then
      match ParseString(text, pos) case Ok(s, p) => Ok(caller.(name := s), p) case Abort => Abort
    else if key == COMMAND then
      match ParseString(text, pos) case Ok(s, p) => Ok(caller.(command := s), p) case Abort => Abort
    else if key == EXE then
      match ParseString(text, pos) case Ok(s, p) => Ok(caller.(exe := s), p) case Abort => Abort
    else
      match SkipValue(text, pos) case Ok(_, p) => Ok(caller, p) case Abort => Abort
  }

  function CallerFields(text: Text, pos: nat, caller: Caller): (r: Parsed<Caller>)
    requires pos <= |text|
    ensures Forward(r, text, pos)
    decreases |text| - pos
  {
    match ParseKey(text, pos)
    case Abort => Abort
    case Ok(key, p) =>
      match CallerField(text, p, key, caller)
      case Abort => Abort
      case Ok(c, v) =>
        match Separator(text, v, CLOSE_BRACE)
        case Abort => Abort
        case Ok(done, q) => if done then Ok(c, q) else CallerFields(text, q, c)
  }

  function ParseCaller(text: Text, pos: nat): (r: Parsed<Caller>)
    requires pos <= |text|
    ensures Forward(r, text, pos)
  {
    match Opening(text, pos, OPEN_BRACE, CLOSE_BRACE)
    case Abort => Abort
    case Ok(done, q) => if done then Ok(EMPTY_CALLER, q) else CallerFields(text, q, EMPTY_CALLER)
  }

  function CallerItems(text: Text, pos: nat): (r: Parsed<seq<Caller>>)
    requires pos <= |text|
    ensures Forward(r, text, pos)
    decreases |text| - pos
  {
    match ParseCaller(text, pos)
    case Abort => Abort
    case Ok(c, p) =>
      match Separator(text, p, CLOSE_BRACKET)
      case Abort => Abort
      case Ok(done, q) => if done then Ok([c], q) else Prepend([c], CallerItems(text, q))
  }

  function ParseCallers(text: Text, pos: nat): (r: Parsed<seq<Caller>>)
    requires pos <= |text|
    ensures Forward(r, text, pos)
  {
    match Opening(text, pos, OPEN_BRACKET, CLOSE_BRACKET)
    case Abort => Abort
    case Ok(done, q) => if done then Ok([], q) else CallerItems(text, q)
  }

  /** Read the value of a context field into the context being built. */
  function CtxField(text: Text, pos: nat, key: Text, ctx: RuleCtx): (r: Parsed<RuleCtx>)
    requires pos <= |text|
    ensures r.Ok? ==> pos <= r.pos <= |text|
  {
    if key == WRAP then
      match ParseString(text, pos) case Ok(s, p) => Ok(ctx.(wrap := s), p) case Abort => Abort
    else if key == JOINED_ARGV then
      match ParseString(text, pos) case Ok(s, p) => Ok(ctx.(joinedArgv := s), p) case Abort => Abort
    else if key == CALLERS then
      match ParseCallers(text, pos) case Ok(cs, p) => Ok(ctx.(callers := cs), p) case Abort => Abort
    else if key == CWD then
      match ParseString(text, pos) case Ok(s, p) => Ok(ctx.(cwd := s), p) case Abort => Abort
    else if key == SECRETS then
      match ParseStringArray(text, pos) case Ok(ss, p) => Ok(ctx.(secrets := ss), p) case Abort => Abort
    else
      match SkipValue(text, pos) case Ok(_, p) => Ok(ctx, p) case Abort => Abort
  }

  function CtxFields(text: Text, pos: nat, ctx: RuleCtx): (r: Parsed<RuleCtx>)
    requires pos <= |text|
    ensures Forward(r, text, pos)
    decreases |text| - pos
  {
    match ParseKey(text, pos)
    case Abort => Abort
    case Ok(key, p) =>
      match CtxField(text, p, key, ctx)
      case Abort => Abort
      case Ok(c, v) =>
        match Separator(text, v, CLOSE_BRACE)
        case Abort => Abort
        case Ok(done, q) => if done then Ok(c, q) else CtxFields(text, q, c)
  }

  function ParseCtx(text: Text): (r: Parsed<RuleCtx>)
    ensures Forward(r, text, 0)
  {
    match Opening(text, 0, OPEN_BRACE, CLOSE_BRACE)
    case Abort => Abort
    case Ok(done, q) => if done then Ok(EMPTY_CTX, q) else CtxFields(text, q, EMPTY_CTX)
  }
}
