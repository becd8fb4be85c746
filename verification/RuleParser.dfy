/** The cursor class and the printers of packages/secreq-rule/assembly, as they run. */
module RuleParser {
  import opened Common
  import opened RuleJson
  import RuleText

  lemma {:induction false} PrependTwice<T>(a: seq<T>, b: seq<T>, r: Parsed<seq<T>>)
    ensures Prepend(a, Prepend(b, r)) == Prepend(a + b, r)
  {
    if r.Ok? {
      assert a + (b + r.value) == (a + b) + r.value;
    }
  }

  lemma {:induction false} PrependNothing<T>(r: Parsed<seq<T>>)
    ensures Prepend([], r) == r
  {
    if r.Ok? {
      assert [] + r.value == r.value;
    }
  }

  class Parser {
    const text: Text
    var pos: nat

    ghost predicate Valid()
      reads this
    {
      pos <= |text|
    }

    /** A finished call: the value read and the cursor the specification gives, or an abort
        (`None`) exactly where the specification aborts. */
    ghost predicate Did<T>(r: Option<T>, spec: Parsed<T>)
      reads this
    {
      match spec
      case Ok(v, q) => r == Some(v) && pos == q
      case Abort => r == None
    }

    constructor (text: Text)
      ensures Valid() && pos == 0 && this.text == text
    {
      this.text := text;
      this.pos := 0;
    }

    method SkipWs()
      requires Valid()
      modifies this
      ensures Valid() && pos == RuleJson.SkipWs(text, old(pos))
    {
      while pos < |text|
        invariant Valid() && RuleJson.SkipWs(text, pos) == RuleJson.SkipWs(text, old(pos))
      {
        if !IsWs(text[pos]) {
          break;
        }
        pos := pos + 1;
      }
    }

    method Peek() returns (c: Option<Unit>)
      requires Valid()
      ensures c == if pos < |text| then Some(text[pos]) else None
    {
      c := if pos < |text| then Some(text[pos]) else None;
    }

    method Expect(c: Unit) returns (ok: bool)
      requires Valid()
      modifies this
      ensures Valid() && ok == Sees(text, old(pos), c)
      ensures pos == if ok then old(pos) + 1 else old(pos)
    {
      var seen := Peek();
      ok := seen == Some(c);
      if ok {
        pos := pos + 1;
      }
    }

    method ParseHex4() returns (r: Option<Unit>)
      requires Valid()
      modifies this
      ensures Valid() && Did(r, Hex4(text, old(pos)))
    {
      var v := 0;
      var i := 0;
      assert text[old(pos)..pos] == [];
      while i < 4
        invariant 0 <= i <= 4 && pos == old(pos) + i <= |text|
        invariant forall k | old(pos) <= k < pos :: IsHexDigit(text[k])
        invariant v == HexValue(text[old(pos)..pos])
      {
        var c := Peek();
        if c.None? || !IsHexDigit(c.value) {
          return None;
        }
        ghost var h := text[old(pos)..pos + 1];
        assert h[..|h| - 1] == text[old(pos)..pos] && h[|h| - 1] == c.value;
        pos := pos + 1;
        v := v * 16 + HexDigit(c.value);
        i := i + 1;
      }
      r := Some(v);
    }

    method ParseString() returns (r: Option<Text>)
      requires Valid()
      modifies this
      ensures Valid() && Did(r, RuleJson.ParseString(text, old(pos)))
    {
      hide Hex4, Escaped, RuleJson.SkipWs;
      SkipWs();
      var quoted := Expect(QUOTE);
      if !quoted {
        return None;
      }
      var out: Text := [];
      ghost var start := pos;
      PrependNothing(StringBody(text, pos));
      while true
        invariant Valid() && start <= pos
        invariant Prepend(out, StringBody(text, pos)) == StringBody(text, start)
        decreases |text| - pos
      {
        ghost var here := pos;
        var c := Peek();
        if c.None? {
          return None;
        }
        pos := pos + 1;
        if c.value == QUOTE {
          assert out + [] == out;
          return Some(out);
        }
        if c.value != BACKSLASH {
          PrependTwice(out, [c.value], StringBody(text, pos));
          out := out + [c.value];
          continue;
        }
        var e := Peek();
        if e.None? {
          return None;
        }
        pos := pos + 1;
        var v;
        if e.value == 0x75 {
          v := ParseHex4();
        } else {
          v := Escaped(e.value);
        }
        if v.None? {
          return None;
        }
        assert StringBody(text, here) == Prepend([v.value], StringBody(text, pos));
        PrependTwice(out, [v.value], StringBody(text, pos));
        out := out + [v.value];
      }
    }

    /** Whitespace and the unit that follows an element. */
    method ParseSeparator(closer: Unit) returns (done: Option<bool>)
      requires Valid()
      modifies this
      ensures Valid() && Did(done, Separator(text, old(pos), closer))
    {
      SkipWs();
      var c := Peek();
      if c.None? {
        return None;
      }
      pos := pos + 1;
      done := if c.value == closer then Some(true) else if c.value == COMMA then Some(false) else None;
    }

    /** The opener of a container and, when it is empty, its closer. */
    method ParseOpening(opener: Unit, closer: Unit) returns (empty: Option<bool>)
      requires Valid()
      modifies this
      ensures Valid() && Did(empty, Opening(text, old(pos), opener, closer))
    {
      SkipWs();
      var ok := Expect(opener);
      if !ok {
        return None;
      }
      SkipWs();
      var c := Peek();
      if c.None? {
        return None;
      }
      if c.value == closer {
        pos := pos + 1;
        return Some(true);
      }
      empty := Some(false);
    }

    method ParseKey() returns (key: Option<Text>)
      requires Valid()
      modifies this
      ensures Valid() && Did(key, RuleJson.ParseKey(text, old(pos)))
    {
      key := ParseString();
      if key.Some? {
        SkipWs();
        var colon := Expect(COLON);
        if !colon {
          return None;
        }
      }
    }

    method ParseStringArray() returns (r: Option<seq<Text>>)
      requires Valid()
      modifies this
      ensures Valid() && Did(r, RuleJson.ParseStringArray(text, old(pos)))
    {
      var out: seq<Text> := [];
      var empty := ParseOpening(OPEN_BRACKET, CLOSE_BRACKET);
      if empty.None? {
        return None;
      }
      if empty.value {
        return Some(out);
      }
      ghost var start := pos;
      PrependNothing(StringItems(text, pos));
      while true
        invariant Valid() && start <= pos
        invariant Prepend(out, StringItems(text, pos)) == StringItems(text, start)
        decreases |text| - pos
      {
        var s := ParseString();
        if s.None? {
          return None;
        }
        var done := ParseSeparator(CLOSE_BRACKET);
        if done.None? {
          return None;
        }
        if done.value {
          return Some(out + [s.value]);
        }
        PrependTwice(out, [s.value], StringItems(text, pos));
        out := out + [s.value];
      }
    }

    method ParseCaller() returns (r: Option<Caller>)
      requires Valid()
      modifies this
      ensures Valid() && Did(r, RuleJson.ParseCaller(text, old(pos)))
    {
      hide Opening, Separator, RuleJson.ParseKey, RuleJson.ParseString, RuleJson.SkipValue;
      var caller := EMPTY_CALLER;
      var empty := ParseOpening(OPEN_BRACE, CLOSE_BRACE);
      if empty.None? {
        return None;
      }
      if empty.value {
        return Some(caller);
      }
      ghost var start := pos;
      while true
        invariant Valid() && start <= pos
        invariant CallerFields(text, pos, caller) == CallerFields(text, start, EMPTY_CALLER)
        decreases |text| - pos
      {
        var key := ParseKey();
        if key.None? {
          return None;
        }
        if key.value == NAME {
          var s := ParseString();
          if s.None? { return None; }
          caller := caller.(name := s.value);
        } else if key.value == COMMAND {
          var s := ParseString();
          if s.None? { return None; }
          caller := caller.(command := s.value);
        } else if key.value == EXE {
          var s := ParseString();
          if s.None? { return None; }
          caller := caller.(exe := s.value);
        } else {
          var s := SkipValue();
          if s.None? { return None; }
        }
        var done := ParseSeparator(CLOSE_BRACE);
        if done.None? {
          return None;
        }
        if done.value {
          return Some(caller);
        }
      }
    }

    method ParseCallers() returns (r: Option<seq<Caller>>)
      requires Valid()
      modifies this
      ensures Valid() && Did(r, RuleJson.ParseCallers(text, old(pos)))
    {
      var out: seq<Caller> := [];
      var empty := ParseOpening(OPEN_BRACKET, CLOSE_BRACKET);
      if empty.None? {
        return None;
      }
      if empty.value {
        return Some(out);
      }
      ghost var start := pos;
      PrependNothing(CallerItems(text, pos));
      hide RuleJson.ParseCaller, Opening, Separator;
      while true
        invariant Valid() && start <= pos
        invariant Prepend(out, CallerItems(text, pos)) == CallerItems(text, start)
        decreases |text| - pos
      {
        var c := ParseCaller();
        if c.None? {
          return None;
        }
        var done := ParseSeparator(CLOSE_BRACKET);
        if done.None? {
          return None;
        }
        if done.value {
          return Some(out + [c.value]);
        }
        PrependTwice(out, [c.value], CallerItems(text, pos));
        out := out + [c.value];
      }
    }

    /** Skip any value. In a loop over items an iteration may consume no value at all, but
        then the separator still moves the cursor on. */
    method SkipValue() returns (r: Option<()>)
      requires Valid()
      modifies this
      ensures Valid() && Did(r, RuleJson.SkipValue(text, old(pos)))
      decreases |text| - pos
    {
      SkipWs();
      ghost var q := pos;
      var c := Peek();
      if c.None? {
        return None;
      }
      if c.value == QUOTE {
        var s := ParseString();
        r := if s.Some? then Some(()) else None;
      } else if c.value == OPEN_BRACE {
        var empty := ParseOpening(OPEN_BRACE, CLOSE_BRACE);
        if empty.None? {
          return None;
        }
        if empty.value {
          return Some(());
        }
        ghost var start := pos;
        while true
          invariant Valid() && old(pos) < start <= pos
          invariant SkipMembers(text, pos) == SkipMembers(text, start)
          decreases |text| - pos
        {
          var key := ParseKey();
          if key.None? {
            return None;
          }
          var v := SkipValue();
          if v.None? {
            return None;
          }
          var done := ParseSeparator(CLOSE_BRACE);
          if done.None? {
            return None;
          }
          if done.value {
            return Some(());
          }
        }
      } else if c.value == OPEN_BRACKET {
        var empty := ParseOpening(OPEN_BRACKET, CLOSE_BRACKET);
        if empty.None? {
          return None;
        }
        if empty.value {
          return Some(());
        }
        ghost var start := pos;
        while true
          invariant Valid() && old(pos) < start <= pos
          invariant SkipItems(text, pos) == SkipItems(text, start)
          decreases |text| - pos
        {
          var v := SkipValue();
          if v.None? {
            return None;
          }
          var done := ParseSeparator(CLOSE_BRACKET);
          if done.None? {
            return None;
          }
          if done.value {
            return Some(());
          }
        }
      } else {
        while pos < |text|
          invariant Valid() && LiteralEnd(text, pos) == LiteralEnd(text, q)
        {
          if IsDelimiter(text[pos]) {
            break;
          }
          pos := pos + 1;
        }
        r := Some(());
      }
    }
  }

  /** Parse the host's context, or abort (`None`). */
  method ParseRuleCtx(text: Text) returns (r: Option<RuleCtx>)
    ensures match ParseCtx(text) case Ok(c, _) => r == Some(c) case Abort => r == None
  {
    hide Opening, Separator, RuleJson.ParseKey, RuleJson.ParseString, RuleJson.SkipValue;
    var p := new Parser(text);
    var ctx := EMPTY_CTX;
    var empty := p.ParseOpening(OPEN_BRACE, CLOSE_BRACE);
    if empty.None? {
      return None;
    }
    if empty.value {
      return Some(ctx);
    }
    ghost var start := p.pos;
    while true
      invariant p.Valid() && start <= p.pos && fresh(p) && p.text == text
      invariant CtxFields(text, p.pos, ctx) == CtxFields(text, start, EMPTY_CTX)
      decreases |text| - p.pos
    {
      var key := p.ParseKey();
      if key.None? {
        return None;
      }
      if key.value == WRAP {
        var s := p.ParseString();
        if s.None? { return None; }
        ctx := ctx.(wrap := s.value);
      } else if key.value == JOINED_ARGV {
        var s := p.ParseString();
        if s.None? { return None; }
        ctx := ctx.(joinedArgv := s.value);
      } else if key.value == CALLERS {
        var cs := p.ParseCallers();
        if cs.None? { return None; }
        ctx := ctx.(callers := cs.value);
      } else if key.value == CWD {
        var s := p.ParseString();
        if s.None? { return None; }
        ctx := ctx.(cwd := s.value);
      } else if key.value == SECRETS {
        var ss := p.ParseStringArray();
        if ss.None? { return None; }
        ctx := ctx.(secrets := ss.value);
      } else {
        var v := p.SkipValue();
        if v.None? { return None; }
      }
      var done := p.ParseSeparator(CLOSE_BRACE);
      if done.None? {
        return None;
      }
      if done.value {
        return Some(ctx);
      }
    }
  }

  lemma {:induction false} QuoteTurn(out: Text, s: Text, i: nat)
    requires i < |s| && out == [QUOTE] + RuleText.QuoteUnits(s[..i])
    ensures out + RuleText.QuoteUnit(s[i]) == [QUOTE] + RuleText.QuoteUnits(s[..i + 1])
  {
    hide RuleText.QuoteUnits, RuleText.QuoteUnit;
    RuleText.QuoteUnitsSnoc(s[..i], s[i]);
    assert s[..i] + [s[i]] == s[..i + 1];
  }

  /** `s` as a JSON string literal. */
  method QuoteJson(s: Text) returns (r: Text)
    ensures r == RuleText.Quote(s)
  {
    hide RuleText.QuoteUnits;
    var out: Text := [QUOTE];
    var i := 0;
    assert RuleText.QuoteUnits(s[..0]) == [] by {
      RuleText.NoUnits();
    }
    while i < |s|
      invariant 0 <= i <= |s| && out == [QUOTE] + RuleText.QuoteUnits(s[..i])
    {
      var c := s[i];
      QuoteTurn(out, s, i);
      if c == QUOTE {
        out := out + [BACKSLASH, QUOTE];
      } else if c == BACKSLASH {
        out := out + [BACKSLASH, BACKSLASH];
      } else if c == 0x08 {
        out := out + [BACKSLASH, 0x62];
      } else if c == 0x09 {
        out := out + [BACKSLASH, 0x74];
      } else if c == 0x0a {
        out := out + [BACKSLASH, 0x6e];
      } else if c == 0x0c {
        out := out + [BACKSLASH, 0x66];
      } else if c == 0x0d {
        out := out + [BACKSLASH, 0x72];
      } else if c < 0x20 {
        out := out + [BACKSLASH, 0x75, 0x30, 0x30, RuleText.LowerHexDigit(c / 16), RuleText.LowerHexDigit(c % 16)];
      } else {
        out := out + [c];
      }
      i := i + 1;
    }
    assert s[..i] == s;
    r := out + [QUOTE];
  }

  /** What `encodeSubjects` still has to write when `i` subjects are written. */
  ghost function Remaining(subjects: seq<Text>, i: nat): Text
    requires i <= |subjects|
  {
    (if 0 < i < |subjects| then [COMMA] else []) + RuleText.QuotedList(subjects[i..])
  }

  lemma {:induction false} RemainingTurn(subjects: seq<Text>, i: nat)
    requires i < |subjects|
    ensures Remaining(subjects, i) ==
            (if i > 0 then [COMMA] else []) + (RuleText.Quote(subjects[i]) + Remaining(subjects, i + 1))
  {
    hide RuleText.Quote;
    var rest := subjects[i..];
    assert rest[0] == subjects[i] && rest[1..] == subjects[i + 1..];
    var q, tail := RuleText.Quote(rest[0]), RuleText.QuotedList(rest[1..]);
    var comma := if |rest| == 1 then [] else [COMMA];
    assert q + comma + tail == q + (comma + tail);
  }

  /** The JSON array a rule module declares its subjects with. */
  method EncodeSubjects(subjects: seq<Text>) returns (json: Text)
    ensures json == RuleText.SubjectsText(subjects)
  {
    hide RuleText.Quote;
    json := [OPEN_BRACKET];
    var i := 0;
    assert subjects[0..] == subjects && [] + RuleText.QuotedList(subjects) == RuleText.QuotedList(subjects);
    while i < |subjects|
      invariant 0 <= i <= |subjects|
      invariant json + Remaining(subjects, i) == RuleText.SubjectsText(subjects)
    {
      RemainingTurn(subjects, i);
      ghost var q, rest := RuleText.Quote(subjects[i]), Remaining(subjects, i + 1);
      ghost var comma := if i > 0 then [COMMA] else [];
      assert json + (comma + (q + rest)) == json + comma + q + rest;
      if i > 0 {
        json := json + [COMMA];
      } else {
        assert json + [] == json;
      }
      var text := QuoteJson(subjects[i]);
      json := json + text;
      i := i + 1;
    }
    json := json + [CLOSE_BRACKET];
  }
}
