/** Exactly which texts the rule parser of packages/secreq-rule/assembly/json.ts takes for a context:
    whatever it does not abort on was written as a value that denotes what it returns. */
module RuleGrammar {
  import opened Common
  import opened RuleJson
  import opened JsonText
  import opened RuleText

  // ---------------------------------------------------------------------
  // Pieces
  // ---------------------------------------------------------------------

  lemma {:induction false} SkippedIsWs(text: Text, pos: nat)
    requires pos <= |text|
    ensures AllWs(text[pos..SkipWs(text, pos)])
    ensures SkipWs(text, pos) < |text| ==> !IsWs(text[SkipWs(text, pos)])
    decreases |text| - pos
  {
    if pos < |text| && IsWs(text[pos]) {
      SkippedIsWs(text, pos + 1);
      var q := SkipWs(text, pos);
      assert text[pos..q] == [text[pos]] + text[pos + 1..q];
    }
  }

  /** The whitespace the cursor skips. */
  lemma {:induction false} WsAt(text: Text, pos: nat) returns (w: Ws)
    requires pos <= |text|
    ensures SkipWs(text, pos) == pos + |w| && At(text, pos, w)
    ensures pos + |w| < |text| ==> !IsWs(text[pos + |w|])
  {
    SkippedIsWs(text, pos);
    w := text[pos..SkipWs(text, pos)];
  }

  lemma {:induction false} OneAt(text: Text, pos: nat)
    requires pos < |text|
    ensures At(text, pos, [text[pos]])
  {
  }

  lemma {:induction false} NoneAt(text: Text, pos: nat)
    requires pos <= |text|
    ensures At(text, pos, [])
  {
  }

  lemma {:induction false} ItemAt(text: Text, pos: nat) returns (item: StrItem)
    requires pos < |text| && text[pos] != QUOTE && StringBody(text, pos).Ok?
    ensures item.Valid() && At(text, pos, item.Render()) && StringBody(text, pos + |item.Render()|).Ok?
  {
    if text[pos] != BACKSLASH {
      item := Raw(text[pos]);
    } else if text[pos + 1] == 0x75 {
      item := Long(text[pos + 2..pos + 6]);
      assert text[pos..pos + 6] == [BACKSLASH, 0x75] + text[pos + 2..pos + 6];
    } else {
      item := Short(text[pos + 1]);
      assert text[pos..pos + 2] == [BACKSLASH, text[pos + 1]];
    }
  }

  lemma {:induction false} BodyAt(text: Text, pos: nat) returns (s: StrLit)
    requires pos <= |text| && StringBody(text, pos).Ok?
    ensures ValidStr(s) && At(text, pos, RenderBody(s))
    decreases |text| - pos
  {
    if text[pos] == QUOTE {
      s := [];
      OneAt(text, pos);
    } else {
      var item := ItemAt(text, pos);
      hide StringBody, StrItem.Valid;
      var rest := BodyAt(text, pos + |item.Render()|);
      s := [item] + rest;
      AtJoin(text, pos, item.Render(), RenderBody(rest));
      assert s[1..] == rest;
    }
  }

  /** A string that parses was written as a literal. */
  lemma {:induction false} StringAt(text: Text, pos: nat) returns (w: Ws, s: StrLit)
    requires pos <= |text| && ParseString(text, pos).Ok?
    ensures ValidStr(s) && At(text, pos, w + RenderStr(s))
  {
    hide StringBody, RenderBody, At;
    w := WsAt(text, pos);
    var q := pos + |w|;
    s := BodyAt(text, q + 1);
    OneAt(text, q);
    AtJoin(text, q, [QUOTE], RenderBody(s));
    AtJoin(text, pos, w, RenderStr(s));
  }

  /** A separator that is read: whitespace, and a comma or the closer. */
  lemma {:induction false} SeparatorAt(text: Text, pos: nat, closer: Unit) returns (after: Ws)
    requires pos <= |text| && Separator(text, pos, closer).Ok?
    ensures At(text, pos, after) && Separator(text, pos, closer).pos == pos + |after| + 1
    ensures At(text, pos + |after|, [if Separator(text, pos, closer).value then closer else COMMA])
    ensures pos < |text| && !IsWs(text[pos]) ==> after == []
  {
    hide SkipWs;
    after := WsAt(text, pos);
    OneAt(text, pos + |after|);
  }

  /** The front of a container that is read. */
  lemma {:induction false} OpeningAt(text: Text, pos: nat, opener: Unit, closer: Unit) returns (w: Ws, open: Ws)
    requires pos <= |text| && Opening(text, pos, opener, closer).Ok?
    ensures var r, u := Opening(text, pos, opener, closer), pos + |w| + 1 + |open|;
            && At(text, pos, w) && At(text, pos + |w|, [opener]) && At(text, pos + |w| + 1, open)
            && u < |text| && !IsWs(text[u])
            && r == (if text[u] == closer then Ok(true, u + 1) else Ok(false, u))
  {
    hide SkipWs;
    w := WsAt(text, pos);
    OneAt(text, pos + |w|);
    open := WsAt(text, pos + |w| + 1);
  }

  lemma {:induction false} KeyAt(text: Text, pos: nat) returns (w: Ws, key: StrLit, colon: Ws)
    requires pos <= |text| && ParseKey(text, pos).Ok?
    ensures ValidStr(key) && At(text, pos, w + (RenderStr(key) + (colon + [COLON])))
    ensures ParseKey(text, pos) == Ok(Decode(key), pos + |w| + |RenderStr(key)| + |colon| + 1)
  {
    hide ParseString, RenderStr, SkipWs, At;
    w, key := StringAt(text, pos);
    StringParses(text, pos, w, key);
    var p := pos + |w| + |RenderStr(key)|;
    colon := WsAt(text, p);
    OneAt(text, p + |colon|);
    AtJoin(text, p, colon, [COLON]);
    AtBoth(text, pos, w, RenderStr(key));
    AtJoin(text, pos + |w|, RenderStr(key), colon + [COLON]);
    AtJoin(text, pos, w, RenderStr(key) + (colon + [COLON]));
  }

  // ---------------------------------------------------------------------
  // Values that are skipped
  // ---------------------------------------------------------------------

  lemma {:induction false} LiteralRun(text: Text, pos: nat)
    requires pos <= |text|
    ensures forall k | pos <= k < LiteralEnd(text, pos) :: !IsDelimiter(text[k])
    ensures LiteralEnd(text, pos) < |text| ==> IsDelimiter(text[LiteralEnd(text, pos)])
    decreases |text| - pos
  {
    if pos < |text| && !IsDelimiter(text[pos]) {
      LiteralRun(text, pos + 1);
    }
  }

  lemma {:induction false} LiteralAt(text: Text, q: nat) returns (v: Value)
    requires q < |text| && !IsWs(text[q])
    requires text[q] != QUOTE && text[q] != OPEN_BRACE && text[q] != OPEN_BRACKET
    ensures Skippable(v) && At(text, q, Render(v)) && Ends(v, text, q + |Render(v)|)
  {
    LiteralRun(text, q);
    v := Literal(text[q..LiteralEnd(text, q)]);
  }

  /** A member whose parts lie one after the other lies in the text. */
  lemma {:induction false} MemberAt(text: Text, pos: nat, w: Ws, key: StrLit, colon: Ws, gap: Ws, v: Value, after: Ws,
                                    tail: Tail<Members>)
    requires ValidStr(key) && At(text, pos, w + (RenderStr(key) + (colon + [COLON])))
    requires var u := pos + |w| + |RenderStr(key)| + |colon| + 1;
             var p := u + |gap| + |Render(v)|;
             && At(text, u, gap + Render(v)) && At(text, p, after)
             && (tail.End? ==> At(text, p + |after|, [CLOSE_BRACE]))
             && (tail.Comma? ==> At(text, p + |after|, [COMMA]) &&
                                 At(text, p + |after| + 1, tail.before + RenderMembers(tail.rest)))
    ensures At(text, pos, w + RenderMembers(Members(key, colon, gap, v, after, tail)))
  {
    hide At, Render, RenderMembers, RenderStr, AfterMember;
    var m := Members(key, colon, gap, v, after, tail);
    var u := pos + |w| + |RenderStr(key)| + |colon| + 1;
    AfterMemberAt(text, u + |gap| + |Render(v)| + |after|, m);
    ValueThen(text, u, gap, Render(v), after, AfterMember(m));
    MemberValueIs(m);
    KeyThen(text, pos, w, RenderStr(key), colon, RenderMemberValue(m));
    MembersAre(m);
  }

  lemma {:induction false} KeyThen(text: Text, pos: nat, w: Ws, key: Text, colon: Ws, more: Text)
    requires At(text, pos, w + (key + (colon + [COLON]))) && At(text, pos + |w| + |key| + |colon| + 1, more)
    ensures At(text, pos, w + (key + (colon + ([COLON] + more))))
  {
    hide At;
    AtBoth(text, pos, w, key + (colon + [COLON]));
    AtBoth(text, pos + |w|, key, colon + [COLON]);
    AtBoth(text, pos + |w| + |key|, colon, [COLON]);
    AtJoin(text, pos + |w| + |key| + |colon|, [COLON], more);
    AtJoin(text, pos + |w| + |key|, colon, [COLON] + more);
    AtJoin(text, pos + |w|, key, colon + ([COLON] + more));
    AtJoin(text, pos, w, key + (colon + ([COLON] + more)));
  }

  lemma {:induction false} ValueThen(text: Text, u: nat, gap: Ws, v: Text, after: Ws, more: Text)
    requires At(text, u, gap + v) && At(text, u + |gap| + |v|, after) && At(text, u + |gap| + |v| + |after|, more)
    ensures At(text, u, gap + (v + (after + more)))
  {
    hide At;
    AtBoth(text, u, gap, v);
    AtJoin(text, u + |gap| + |v|, after, more);
    AtJoin(text, u + |gap|, v, after + more);
    AtJoin(text, u, gap, v + (after + more));
  }

  lemma {:induction false} MemberValueIs(m: Members)
    ensures RenderMemberValue(m) == m.gap + (Render(m.v) + (m.after + AfterMember(m)))
  {
  }

  lemma {:induction false} MembersAre(m: Members)
    ensures RenderMembers(m) == RenderStr(m.key) + (m.colon + ([COLON] + RenderMemberValue(m)))
  {
  }

  lemma {:induction false} AfterMemberAt(text: Text, pos: nat, m: Members)
    requires m.tail.End? ==> At(text, pos, [CLOSE_BRACE])
    requires m.tail.Comma? ==> At(text, pos, [COMMA]) && At(text, pos + 1, m.tail.before + RenderMembers(m.tail.rest))
    ensures At(text, pos, AfterMember(m))
  {
    hide At, RenderMembers;
    if m.tail.Comma? {
      AtJoin(text, pos, [COMMA], m.tail.before + RenderMembers(m.tail.rest));
    }
  }

  /** An item whose parts lie one after the other lies in the text. */
  lemma {:induction false} ItemsAt(text: Text, pos: nat, w: Ws, v: Value, after: Ws, tail: Tail<Items>)
    requires var p := pos + |w| + |Render(v)|;
             && At(text, pos, w + Render(v)) && At(text, p, after)
             && (tail.End? ==> At(text, p + |after|, [CLOSE_BRACKET]))
             && (tail.Comma? ==> At(text, p + |after|, [COMMA]) &&
                                 At(text, p + |after| + 1, tail.before + RenderItems(tail.rest)))
    ensures At(text, pos, w + RenderItems(Items(v, after, tail)))
  {
    hide At, Render, RenderItems;
    var i := Items(v, after, tail);
    var p := pos + |w| + |Render(v)|;
    AfterItemAt(text, p + |after|, i);
    AtBoth(text, pos, w, Render(v));
    AtJoin(text, p, after, AfterItem(i));
    AtJoin(text, pos + |w|, Render(v), after + AfterItem(i));
    ItemsAre(i);
    AtJoin(text, pos, w, RenderItems(i));
  }

  lemma {:induction false} ItemsAre(i: Items)
    ensures RenderItems(i) == Render(i.v) + (i.after + AfterItem(i))
  {
  }

  lemma {:induction false} AfterItemAt(text: Text, pos: nat, i: Items)
    requires i.tail.End? ==> At(text, pos, [CLOSE_BRACKET])
    requires i.tail.Comma? ==> At(text, pos, [COMMA]) && At(text, pos + 1, i.tail.before + RenderItems(i.tail.rest))
    ensures At(text, pos, AfterItem(i))
  {
    hide At, RenderItems;
    if i.tail.Comma? {
      AtJoin(text, pos, [COMMA], i.tail.before + RenderItems(i.tail.rest));
    }
  }

  /** A container whose parts lie one after the other lies in the text. */
  lemma {:induction false} ArrAt(text: Text, pos: nat, w: Ws, open: Ws, items: Option<Items>)
    requires At(text, pos, w) && At(text, pos + |w|, [OPEN_BRACKET]) && At(text, pos + |w| + 1, open)
    requires var u := pos + |w| + 1 + |open|;
             && (items.None? ==> At(text, u, [CLOSE_BRACKET]))
             && (items.Some? ==> At(text, u, RenderItems(items.value)))
    ensures At(text, pos, w + Render(Arr(open, items)))
  {
    hide At, RenderItems;
    var inner := if items.None? then [CLOSE_BRACKET] else RenderItems(items.value);
    AtJoin(text, pos + |w| + 1, open, inner);
    AtJoin(text, pos + |w|, [OPEN_BRACKET], open + inner);
    AtJoin(text, pos, w, Render(Arr(open, items)));
  }

  lemma {:induction false} ObjAt(text: Text, pos: nat, w: Ws, open: Ws, members: Option<Members>)
    requires At(text, pos, w) && At(text, pos + |w|, [OPEN_BRACE]) && At(text, pos + |w| + 1, open)
    requires var u := pos + |w| + 1 + |open|;
             && (members.None? ==> At(text, u, [CLOSE_BRACE]))
             && (members.Some? ==> At(text, u, RenderMembers(members.value)))
    ensures At(text, pos, w + Render(Obj(open, members)))
  {
    hide At, RenderMembers;
    var inner := if members.None? then [CLOSE_BRACE] else RenderMembers(members.value);
    AtJoin(text, pos + |w| + 1, open, inner);
    AtJoin(text, pos + |w|, [OPEN_BRACE], open + inner);
    AtJoin(text, pos, w, Render(Obj(open, members)));
  }

  /** Nothing is skipped in front of what is not whitespace. */
  lemma {:induction false} NoGap(text: Text, pos: nat, w: Ws, piece: Text)
    requires pos < |text| && !IsWs(text[pos]) && At(text, pos, w + piece)
    ensures w == [] && w + piece == piece
  {
    if w != [] {
      AtBoth(text, pos, w, piece);
      AtHead(text, pos, w);
    }
  }

  lemma {:induction false} NotClosed(text: Text, u: nat, i: Items)
    requires u < |text| && text[u] != CLOSE_BRACKET && ValidItems(i) && At(text, u, RenderItems(i))
    ensures !(i.v == MISSING && i.tail.End?)
  {
    if i.v == MISSING && i.tail.End? {
      assert RenderItems(i) == [CLOSE_BRACKET];
      AtHead(text, u, RenderItems(i));
    }
  }

  lemma {:induction false} EmptyObj(text: Text, pos: nat) returns (w: Ws, v: Value)
    requires pos <= |text| && Opening(text, pos, OPEN_BRACE, CLOSE_BRACE).Ok?
    requires Opening(text, pos, OPEN_BRACE, CLOSE_BRACE).value
    ensures v.Obj? && Skippable(v) && At(text, pos, w + Render(v))
  {
    hide At, Render, Opening;
    var open;
    w, open := OpeningAt(text, pos, OPEN_BRACE, CLOSE_BRACE);
    OneAt(text, pos + |w| + 1 + |open|);
    v := Obj(open, None);
    ObjAt(text, pos, w, open, None);
  }

  lemma {:induction false} FullObj(text: Text, pos: nat, gap: Ws, m: Members) returns (w: Ws, v: Value)
    requires pos <= |text| && Opening(text, pos, OPEN_BRACE, CLOSE_BRACE).Ok?
    requires !Opening(text, pos, OPEN_BRACE, CLOSE_BRACE).value && ValidMembers(m)
    requires At(text, Opening(text, pos, OPEN_BRACE, CLOSE_BRACE).pos, gap + RenderMembers(m))
    ensures v.Obj? && Skippable(v) && At(text, pos, w + Render(v))
  {
    hide At, Render, Opening, RenderMembers, ValidMembers;
    var open;
    w, open := OpeningAt(text, pos, OPEN_BRACE, CLOSE_BRACE);
    NoGap(text, pos + |w| + 1 + |open|, gap, RenderMembers(m));
    v := Obj(open, Some(m));
    ObjAt(text, pos, w, open, Some(m));
  }

  lemma {:induction false} EmptyArr(text: Text, pos: nat) returns (w: Ws, v: Value)
    requires pos <= |text| && Opening(text, pos, OPEN_BRACKET, CLOSE_BRACKET).Ok?
    requires Opening(text, pos, OPEN_BRACKET, CLOSE_BRACKET).value
    ensures v.Arr? && Skippable(v) && At(text, pos, w + Render(v))
  {
    hide At, Render, Opening;
    var open;
    w, open := OpeningAt(text, pos, OPEN_BRACKET, CLOSE_BRACKET);
    OneAt(text, pos + |w| + 1 + |open|);
    v := Arr(open, None);
    ArrAt(text, pos, w, open, None);
  }

  lemma {:induction false} FullArr(text: Text, pos: nat, gap: Ws, i: Items) returns (w: Ws, v: Value)
    requires pos <= |text| && Opening(text, pos, OPEN_BRACKET, CLOSE_BRACKET).Ok?
    requires !Opening(text, pos, OPEN_BRACKET, CLOSE_BRACKET).value && ValidItems(i)
    requires At(text, Opening(text, pos, OPEN_BRACKET, CLOSE_BRACKET).pos, gap + RenderItems(i))
    ensures v.Arr? && Skippable(v) && At(text, pos, w + Render(v))
  {
    hide At, Render, Opening, RenderItems, ValidItems;
    var open;
    w, open := OpeningAt(text, pos, OPEN_BRACKET, CLOSE_BRACKET);
    NoGap(text, pos + |w| + 1 + |open|, gap, RenderItems(i));
    NotClosed(text, pos + |w| + 1 + |open|, i);
    v := Arr(open, Some(i));
    ArrAt(text, pos, w, open, Some(i));
  }

  /** Whatever is skipped was a value. */
  lemma {:induction false} ValueAtPos(text: Text, pos: nat) returns (w: Ws, v: Value)
    requires pos <= |text| && SkipValue(text, pos).Ok?
    ensures Skippable(v) && At(text, pos, w + Render(v)) && Ends(v, text, pos + |w| + |Render(v)|)
    decreases |text| - pos, 2
  {
    w := WsAt(text, pos);
    SkipsAlike(text, pos);
    hide SkipValue, At, Render, Skippable, AllWs, SkipWs;
    v := SkippedAt(text, pos + |w|);
    AtJoin(text, pos, w, Render(v));
  }

  lemma {:induction false} SkippedAt(text: Text, q: nat) returns (v: Value)
    requires q <= |text| && SkipValue(text, q).Ok? && SkipWs(text, q) == q
    ensures Skippable(v) && At(text, q, Render(v)) && Ends(v, text, q + |Render(v)|)
    decreases |text| - q, 1
  {
    hide Opening, SkipMembers, SkipItems, StringBody, LiteralEnd, AllWs;
    if text[q] == QUOTE {
      var gap, s := StringAt(text, q);
      NoGap(text, q, gap, RenderStr(s));
      v := Str(s);
    } else if text[q] == OPEN_BRACE {
      v := SkippedObjAt(text, q);
    } else if text[q] == OPEN_BRACKET {
      v := SkippedArrAt(text, q);
    } else {
      v := LiteralAt(text, q);
    }
  }

  lemma {:induction false} SkipsAlike(text: Text, pos: nat)
    requires pos <= |text|
    ensures SkipValue(text, pos) == SkipValue(text, SkipWs(text, pos))
  {
    SkippedIsWs(text, pos);
    hide Opening, SkipMembers, SkipItems, ParseString, LiteralEnd;
  }

  lemma {:induction false} SkippedObjAt(text: Text, q: nat) returns (v: Value)
    requires q < |text| && text[q] == OPEN_BRACE && SkipValue(text, q).Ok?
    ensures v.Obj? && Skippable(v) && At(text, q, Render(v))
    decreases |text| - q, 0
  {
    hide At, Render, Opening, Skippable, SkipMembers, RenderMembers;
    var w;
    if Opening(text, q, OPEN_BRACE, CLOSE_BRACE).value {
      w, v := EmptyObj(text, q);
    } else {
      var gap, m := MembersAtPos(text, Opening(text, q, OPEN_BRACE, CLOSE_BRACE).pos);
      w, v := FullObj(text, q, gap, m);
    }
    NoGap(text, q, w, Render(v));
  }

  lemma {:induction false} SkippedArrAt(text: Text, q: nat) returns (v: Value)
    requires q < |text| && text[q] == OPEN_BRACKET && SkipValue(text, q).Ok?
    ensures v.Arr? && Skippable(v) && At(text, q, Render(v))
    decreases |text| - q, 0
  {
    hide At, Render, Opening, Skippable, SkipItems, RenderItems;
    var w;
    if Opening(text, q, OPEN_BRACKET, CLOSE_BRACKET).value {
      w, v := EmptyArr(text, q);
    } else {
      var gap, i := ItemsAtPos(text, Opening(text, q, OPEN_BRACKET, CLOSE_BRACKET).pos);
      w, v := FullArr(text, q, gap, i);
    }
    NoGap(text, q, w, Render(v));
  }

  lemma {:induction false} MembersAtPos(text: Text, pos: nat) returns (w: Ws, m: Members)
    requires pos <= |text| && SkipMembers(text, pos).Ok?
    ensures ValidMembers(m) && At(text, pos, w + RenderMembers(m))
    decreases |text| - pos, 3
  {
    hide At, Render, RenderMembers, RenderStr, Separator, ParseKey, SkipValue, Skippable, AllWs;
    var key, colon, gap, v, after;
    w, key, colon := KeyAt(text, pos);
    var u := pos + |w| + |RenderStr(key)| + |colon| + 1;
    gap, v := ValueAtPos(text, u);
    SkipsOneValue(text, u, gap, v);
    var p := u + |gap| + |Render(v)|;
    after := SeparatorAt(text, p, CLOSE_BRACE);
    if Separator(text, p, CLOSE_BRACE).value {
      m := Members(key, colon, gap, v, after, End);
      MemberAt(text, pos, w, key, colon, gap, v, after, End);
    } else {
      var before, rest := MembersAtPos(text, p + |after| + 1);
      m := Members(key, colon, gap, v, after, Comma(before, rest));
      MemberAt(text, pos, w, key, colon, gap, v, after, Comma(before, rest));
    }
  }

  lemma {:induction false} ItemsAtPos(text: Text, pos: nat) returns (w: Ws, i: Items)
    requires pos <= |text| && SkipItems(text, pos).Ok?
    ensures ValidItems(i) && At(text, pos, w + RenderItems(i))
    decreases |text| - pos, 3
  {
    hide At, Render, RenderItems, Separator, SkipValue, Skippable, AllWs;
    var v, after;
    w, v := ValueAtPos(text, pos);
    SkipsOneValue(text, pos, w, v);
    var p := pos + |w| + |Render(v)|;
    after := SeparatorAt(text, p, CLOSE_BRACKET);
    if Separator(text, p, CLOSE_BRACKET).value {
      i := Items(v, after, End);
      ItemsAt(text, pos, w, v, after, End);
    } else {
      var before, rest := ItemsAtPos(text, p + |after| + 1);
      i := Items(v, after, Comma(before, rest));
      ItemsAt(text, pos, w, v, after, Comma(before, rest));
    }
  }

  // ---------------------------------------------------------------------
  // Values that are read
  // ---------------------------------------------------------------------

  /** A string that is read, as a value. */
  lemma {:induction false} StringValueAt(text: Text, pos: nat) returns (w: Ws, v: Value)
    requires pos <= |text| && ParseString(text, pos).Ok?
    ensures v.Str? && Skippable(v) && At(text, pos, w + Render(v))
  {
    var s;
    w, s := StringAt(text, pos);
    v := Str(s);
  }

  lemma {:induction false} StringItemsAt(text: Text, pos: nat) returns (w: Ws, i: Items)
    requires pos <= |text| && StringItems(text, pos).Ok?
    ensures ValidItems(i) && At(text, pos, w + RenderItems(i))
    decreases |text| - pos
  {
    hide At, Render, RenderItems, Separator, ParseString, AllWs;
    var v, after;
    w, v := StringValueAt(text, pos);
    ReadsString(text, pos, w, v);
    var p := pos + |w| + |Render(v)|;
    after := SeparatorAt(text, p, CLOSE_BRACKET);
    if Separator(text, p, CLOSE_BRACKET).value {
      i := Items(v, after, End);
      ItemsAt(text, pos, w, v, after, End);
    } else {
      var before, rest := StringItemsAt(text, p + |after| + 1);
      i := Items(v, after, Comma(before, rest));
      ItemsAt(text, pos, w, v, after, Comma(before, rest));
    }
  }

  lemma {:induction false} StringArrayAt(text: Text, pos: nat) returns (w: Ws, v: Value)
    requires pos <= |text| && ParseStringArray(text, pos).Ok?
    ensures v.Arr? && Skippable(v) && At(text, pos, w + Render(v))
  {
    hide At, Render, Opening, Skippable, StringItems, RenderItems;
    if Opening(text, pos, OPEN_BRACKET, CLOSE_BRACKET).value {
      w, v := EmptyArr(text, pos);
    } else {
      var gap, i := StringItemsAt(text, Opening(text, pos, OPEN_BRACKET, CLOSE_BRACKET).pos);
      w, v := FullArr(text, pos, gap, i);
    }
  }

  lemma {:induction false} CallerFieldAt(text: Text, pos: nat, key: Text, caller: Caller) returns (w: Ws, v: Value)
    requires pos <= |text| && CallerField(text, pos, key, caller).Ok?
    ensures Skippable(v) && At(text, pos, w + Render(v)) && Ends(v, text, pos + |w| + |Render(v)|)
  {
    hide At, Render, Skippable, ParseString, SkipValue;
    if key == NAME || key == COMMAND || key == EXE {
      w, v := StringValueAt(text, pos);
    } else {
      w, v := ValueAtPos(text, pos);
    }
  }

  lemma {:induction false} CallerFieldsAt(text: Text, pos: nat, caller: Caller) returns (w: Ws, m: Members)
    requires pos <= |text| && CallerFields(text, pos, caller).Ok?
    ensures ValidMembers(m) && At(text, pos, w + RenderMembers(m))
    decreases |text| - pos
  {
    hide At, Render, RenderMembers, RenderStr, Separator, ParseKey, CallerField, SetCallerField, Skippable, AllWs;
    var key, colon, gap, v, after;
    w, key, colon := KeyAt(text, pos);
    var u := pos + |w| + |RenderStr(key)| + |colon| + 1;
    gap, v := CallerFieldAt(text, u, Decode(key), caller);
    ReadsCallerField(text, u, gap, Decode(key), v, caller);
    var p := u + |gap| + |Render(v)|;
    after := SeparatorAt(text, p, CLOSE_BRACE);
    if Separator(text, p, CLOSE_BRACE).value {
      m := Members(key, colon, gap, v, after, End);
      MemberAt(text, pos, w, key, colon, gap, v, after, End);
    } else {
      var before, rest := CallerFieldsAt(text, p + |after| + 1, CallerField(text, u, Decode(key), caller).value);
      m := Members(key, colon, gap, v, after, Comma(before, rest));
      MemberAt(text, pos, w, key, colon, gap, v, after, Comma(before, rest));
    }
  }

  lemma {:induction false} CallerAt(text: Text, pos: nat) returns (w: Ws, v: Value)
    requires pos <= |text| && ParseCaller(text, pos).Ok?
    ensures v.Obj? && Skippable(v) && At(text, pos, w + Render(v))
  {
    hide At, Render, Opening, Skippable, CallerFields, RenderMembers;
    if Opening(text, pos, OPEN_BRACE, CLOSE_BRACE).value {
      w, v := EmptyObj(text, pos);
    } else {
      var gap, m := CallerFieldsAt(text, Opening(text, pos, OPEN_BRACE, CLOSE_BRACE).pos, EMPTY_CALLER);
      w, v := FullObj(text, pos, gap, m);
    }
  }

  lemma {:induction false} CallerItemsAt(text: Text, pos: nat) returns (w: Ws, i: Items)
    requires pos <= |text| && CallerItems(text, pos).Ok?
    ensures ValidItems(i) && At(text, pos, w + RenderItems(i))
    decreases |text| - pos
  {
    hide At, Render, RenderItems, Separator, ParseCaller, AllWs, Skippable, ReadCaller;
    var v, after;
    w, v := CallerAt(text, pos);
    ReadsCaller(text, pos, w, v);
    var p := pos + |w| + |Render(v)|;
    after := SeparatorAt(text, p, CLOSE_BRACKET);
    if Separator(text, p, CLOSE_BRACKET).value {
      i := Items(v, after, End);
      ItemsAt(text, pos, w, v, after, End);
    } else {
      var before, rest := CallerItemsAt(text, p + |after| + 1);
      i := Items(v, after, Comma(before, rest));
      ItemsAt(text, pos, w, v, after, Comma(before, rest));
    }
  }

  lemma {:induction false} CallersAt(text: Text, pos: nat) returns (w: Ws, v: Value)
    requires pos <= |text| && ParseCallers(text, pos).Ok?
    ensures v.Arr? && Skippable(v) && At(text, pos, w + Render(v))
  {
    hide At, Render, Opening, Skippable, CallerItems, RenderItems;
    if Opening(text, pos, OPEN_BRACKET, CLOSE_BRACKET).value {
      w, v := EmptyArr(text, pos);
    } else {
      var gap, i := CallerItemsAt(text, Opening(text, pos, OPEN_BRACKET, CLOSE_BRACKET).pos);
      w, v := FullArr(text, pos, gap, i);
    }
  }

  lemma {:induction false} CtxFieldAt(text: Text, pos: nat, key: Text, ctx: RuleCtx) returns (w: Ws, v: Value)
    requires pos <= |text| && CtxField(text, pos, key, ctx).Ok?
    ensures Skippable(v) && At(text, pos, w + Render(v)) && Ends(v, text, pos + |w| + |Render(v)|)
  {
    hide At, Render, Skippable, ParseString, ParseCallers, ParseStringArray, SkipValue;
    if key == WRAP || key == JOINED_ARGV || key == CWD {
      w, v := StringValueAt(text, pos);
    } else if key == CALLERS {
      w, v := CallersAt(text, pos);
    } else if key == SECRETS {
      w, v := StringArrayAt(text, pos);
    } else {
      w, v := ValueAtPos(text, pos);
    }
  }

  lemma {:induction false} CtxFieldsAt(text: Text, pos: nat, ctx: RuleCtx) returns (w: Ws, m: Members)
    requires pos <= |text| && CtxFields(text, pos, ctx).Ok?
    ensures ValidMembers(m) && At(text, pos, w + RenderMembers(m))
    decreases |text| - pos
  {
    hide At, Render, RenderMembers, RenderStr, Separator, ParseKey, CtxField, SetCtxField, Skippable, AllWs;
    var key, colon, gap, v, after;
    w, key, colon := KeyAt(text, pos);
    var u := pos + |w| + |RenderStr(key)| + |colon| + 1;
    gap, v := CtxFieldAt(text, u, Decode(key), ctx);
    ReadsCtxField(text, u, gap, Decode(key), v, ctx);
    var p := u + |gap| + |Render(v)|;
    after := SeparatorAt(text, p, CLOSE_BRACE);
    if Separator(text, p, CLOSE_BRACE).value {
      m := Members(key, colon, gap, v, after, End);
      MemberAt(text, pos, w, key, colon, gap, v, after, End);
    } else {
      var before, rest := CtxFieldsAt(text, p + |after| + 1, CtxField(text, u, Decode(key), ctx).value);
      m := Members(key, colon, gap, v, after, Comma(before, rest));
      MemberAt(text, pos, w, key, colon, gap, v, after, Comma(before, rest));
    }
  }

  /** A context that is read was written as an object. */
  lemma {:induction false} CtxAt(text: Text) returns (w: Ws, v: Value)
    requires ParseCtx(text).Ok?
    ensures v.Obj? && Skippable(v) && At(text, 0, w + Render(v))
  {
    hide At, Render, Opening, Skippable, CtxFields, RenderMembers;
    if Opening(text, 0, OPEN_BRACE, CLOSE_BRACE).value {
      w, v := EmptyObj(text, 0);
    } else {
      var gap, m := CtxFieldsAt(text, Opening(text, 0, OPEN_BRACE, CLOSE_BRACE).pos, EMPTY_CTX);
      w, v := FullObj(text, 0, gap, m);
    }
  }

  // ---------------------------------------------------------------------
  // What is read, and what is refused
  // ---------------------------------------------------------------------

  /** The text begins, after any whitespace, with `v` as somebody might write it, up to `end`. */
  ghost predicate Writes(text: Text, w: Ws, v: Value, end: nat)
  {
    Valid(v) && w + Render(v) <= text && end == |w| + |Render(v)|
  }

  /** The parser returns a context if and only if the text begins with a value that denotes it, and
      stops right behind that value; it aborts on every other text. */
  lemma {:induction false} ReadsExactly(text: Text, ctx: RuleCtx, end: nat)
    ensures ParseCtx(text) == Ok(ctx, end) <==>
            exists w: Ws, v: Value :: Writes(text, w, v, end) && ReadCtx(v) == Some(ctx)
  {
    hide ParseCtx, Render, ReadCtx, Skippable, AllWs;
    if ParseCtx(text) == Ok(ctx, end) {
      var w, v := CtxAt(text);
      AtIsPrefix(text, w + Render(v));
      CtxParses(text, w, v);
      assert Writes(text, w, v, end);
    }
    forall w: Ws, v: Value | Writes(text, w, v, end) && ReadCtx(v) == Some(ctx)
      ensures ParseCtx(text) == Ok(ctx, end)
    {
      CtxParses(text, w, v);
    }
  }

  lemma {:induction false} AtIsPrefix(text: Text, piece: Text)
    requires At(text, 0, piece)
    ensures piece <= text
  {
    assert text[0..|piece|] == piece;
  }

  // ---------------------------------------------------------------------
  // One text, one value
  // ---------------------------------------------------------------------

  lemma {:induction false} AtUnit(text: Text, pos: nat, piece: Text, k: nat)
    requires At(text, pos, piece) && k < |piece|
    ensures text[pos + k] == piece[k]
  {
    assert text[pos..pos + |piece|][k] == text[pos + k];
  }

  lemma {:induction false} OneItem(text: Text, pos: nat, a: StrItem, b: StrItem)
    requires a.Valid() && b.Valid() && At(text, pos, a.Render()) && At(text, pos, b.Render())
    ensures a == b
  {
    AtUnit(text, pos, a.Render(), 0);
    AtUnit(text, pos, b.Render(), 0);
    if !a.Raw? && !b.Raw? {
      AtUnit(text, pos, a.Render(), 1);
      AtUnit(text, pos, b.Render(), 1);
      if a.Long? && b.Long? {
        AtBoth(text, pos, [BACKSLASH, 0x75], a.hex);
        AtBoth(text, pos, [BACKSLASH, 0x75], b.hex);
      }
    }
  }

  lemma {:induction false} ItemIsNoQuote(text: Text, pos: nat, item: StrItem)
    requires item.Valid() && At(text, pos, item.Render())
    ensures text[pos] != QUOTE
  {
    AtUnit(text, pos, item.Render(), 0);
  }

  lemma {:induction false} OneBody(text: Text, pos: nat, s: StrLit, t: StrLit)
    requires ValidStr(s) && ValidStr(t) && At(text, pos, RenderBody(s)) && At(text, pos, RenderBody(t))
    ensures s == t
    decreases |s|
  {
    hide At, StrItem.Render, StrItem.Valid;
    if s == [] || t == [] {
      AtHead(text, pos, [QUOTE]);
      if s != [] {
        AtBoth(text, pos, s[0].Render(), RenderBody(s[1..]));
        ItemIsNoQuote(text, pos, s[0]);
      }
      if t != [] {
        AtBoth(text, pos, t[0].Render(), RenderBody(t[1..]));
        ItemIsNoQuote(text, pos, t[0]);
      }
    } else {
      AtBoth(text, pos, s[0].Render(), RenderBody(s[1..]));
      AtBoth(text, pos, t[0].Render(), RenderBody(t[1..]));
      OneItem(text, pos, s[0], t[0]);
      OneBody(text, pos + |s[0].Render()|, s[1..], t[1..]);
      assert s == [s[0]] + s[1..] && t == [t[0]] + t[1..];
    }
  }

  lemma {:induction false} OneString(text: Text, pos: nat, s: StrLit, t: StrLit)
    requires ValidStr(s) && ValidStr(t) && At(text, pos, RenderStr(s)) && At(text, pos, RenderStr(t))
    ensures s == t
  {
    hide At, RenderBody;
    AtBoth(text, pos, [QUOTE], RenderBody(s));
    AtBoth(text, pos, [QUOTE], RenderBody(t));
    OneBody(text, pos + 1, s, t);
  }

  /** Pieces of one length at one place are one piece. */
  lemma {:induction false} OnePiece(text: Text, pos: nat, a: Text, b: Text)
    requires At(text, pos, a) && At(text, pos, b) && |a| == |b|
    ensures a == b
  {
  }

  /** Whitespace in front of something else is one run of it. */
  lemma {:induction false} OneGap(text: Text, pos: nat, w: Ws, a: Text, x: Ws, b: Text)
    requires At(text, pos, w + a) && a != [] && !IsWs(a[0])
    requires At(text, pos, x + b) && b != [] && !IsWs(b[0])
    ensures w == x && At(text, pos + |w|, a) && At(text, pos + |w|, b)
  {
    hide At, SkipWs, AllWs;
    SkipsTo(text, pos, w, a);
    SkipsTo(text, pos, x, b);
    AtBoth(text, pos, w, a);
    AtBoth(text, pos, x, b);
    OnePiece(text, pos, w, x);
  }

  lemma {:induction false} OneLiteral(text: Text, q: nat, s: Text, t: Text)
    requires Skippable(Literal(s)) && Skippable(Literal(t)) && At(text, q, s) && At(text, q, t)
    requires Ends(Literal(s), text, q + |s|) && Ends(Literal(t), text, q + |t|)
    ensures s == t
  {
    LiteralEnds(text, q, s);
    LiteralEnds(text, q, t);
    OnePiece(text, q, s, t);
  }

  /** A text is written as at most one value: nothing the grammar allows is ambiguous. */
  lemma {:induction false} OneValue(text: Text, pos: nat, w: Ws, v: Value, x: Ws, y: Value)
    requires Skippable(v) && At(text, pos, w + Render(v)) && Ends(v, text, pos + |w| + |Render(v)|)
    requires Skippable(y) && At(text, pos, x + Render(y)) && Ends(y, text, pos + |x| + |Render(y)|)
    ensures w == x && v == y
    decreases v, 1
  {
    Begins(text, pos, w, v);
    Begins(text, pos, x, y);
    AtBoth(text, pos, w, Render(v));
    AtBoth(text, pos, x, Render(y));
    OnePiece(text, pos, w, x);
    hide At, SkipWs, RenderStr, RenderItems, RenderMembers, ValidItems, ValidMembers, AllWs, ValidLiteral;
    var q := pos + |w|;
    match v {
      case Str(s) =>
        OneString(text, q, s, y.s);
      case Literal(t) =>
        OneLiteral(text, q, t, y.t);
      case Arr(open, items) =>
        OneArr(text, q, v, y);
      case Obj(open, members) =>
        OneObj(text, q, v, y);
    }
  }

  const NO_WS: Ws := []

  lemma {:induction false} NoWs(t: Text)
    ensures NO_WS + t == t
  {
  }

  lemma {:induction false} OneArr(text: Text, q: nat, v: Value, y: Value)
    requires v.Arr? && Skippable(v) && At(text, q, Render(v))
    requires y.Arr? && Skippable(y) && At(text, q, Render(y))
    ensures v == y
    decreases v, 0
  {
    hide At, Render, RenderItems, Skippable, AllWs;
    var a, b := Inside(v), Inside(y);
    InsideStarts(v);
    InsideStarts(y);
    AtBoth(text, q, [OPEN_BRACKET], v.open + a);
    AtBoth(text, q, [OPEN_BRACKET], y.open + b);
    OneGap(text, q + 1, v.open, a, y.open, b);
    AtHead(text, q + 1 + |v.open|, a);
    AtHead(text, q + 1 + |v.open|, b);
    if v.items.Some? {
      assert a == RenderItems(v.items.value) && b == RenderItems(y.items.value);
      NoWs(a);
      NoWs(b);
      hide *;
      OneItems(text, q + 1 + |v.open|, NO_WS, v.items.value, NO_WS, y.items.value);
    }
  }

  ghost function Inside(v: Value): Text
    requires v.Arr? || v.Obj?
  {
    if v.Arr? then if v.items.None? then [CLOSE_BRACKET] else RenderItems(v.items.value)
    else if v.members.None? then [CLOSE_BRACE] else RenderMembers(v.members.value)
  }

  lemma {:induction false} InsideStarts(v: Value)
    requires (v.Arr? || v.Obj?) && Skippable(v)
    ensures Inside(v) != [] && !IsWs(Inside(v)[0])
    ensures v.Arr? ==> (v.items.None? <==> Inside(v)[0] == CLOSE_BRACKET)
    ensures v.Obj? ==> (v.members.None? <==> Inside(v)[0] == CLOSE_BRACE)
    ensures v.Arr? && v.items.Some? ==> ValidItems(v.items.value)
    ensures v.Obj? && v.members.Some? ==> ValidMembers(v.members.value)
    ensures Render(v) == [if v.Arr? then OPEN_BRACKET else OPEN_BRACE] + (v.open + Inside(v))
  {
    hide RenderItems, RenderMembers, ValidItems, ValidMembers;
    if v.Arr? && v.items.Some? {
      ItemsStart(v.items.value);
    }
    if v.Obj? && v.members.Some? {
      MembersStart(v.members.value);
    }
  }

  lemma {:induction false} OneObj(text: Text, q: nat, v: Value, y: Value)
    requires v.Obj? && Skippable(v) && At(text, q, Render(v))
    requires y.Obj? && Skippable(y) && At(text, q, Render(y))
    ensures v == y
    decreases v, 0
  {
    hide At, Render, RenderMembers, Skippable, AllWs;
    var a, b := Inside(v), Inside(y);
    InsideStarts(v);
    InsideStarts(y);
    AtBoth(text, q, [OPEN_BRACE], v.open + a);
    AtBoth(text, q, [OPEN_BRACE], y.open + b);
    OneGap(text, q + 1, v.open, a, y.open, b);
    AtHead(text, q + 1 + |v.open|, a);
    AtHead(text, q + 1 + |v.open|, b);
    if v.members.Some? {
      assert a == RenderMembers(v.members.value) && b == RenderMembers(y.members.value);
      NoWs(a);
      NoWs(b);
      hide *;
      OneMembers(text, q + 1 + |v.open|, NO_WS, v.members.value, NO_WS, y.members.value);
    }
  }

  lemma {:induction false} OneItems(text: Text, pos: nat, w: Ws, i: Items, x: Ws, j: Items)
    requires ValidItems(i) && At(text, pos, w + RenderItems(i))
    requires ValidItems(j) && At(text, pos, x + RenderItems(j))
    ensures w == x && i == j
    decreases i, 2
  {
    hide At, Render, RenderItems, Separator, Skippable, AllWs;
    ItemParts(text, pos, w, i);
    ItemParts(text, pos, x, j);
    OneValue(text, pos, w, i.v, x, j.v);
    var p := pos + |w| + |Render(i.v)|;
    AfterItemIs(i);
    AfterItemIs(j);
    hide AfterItem;
    OneGap(text, p, i.after, AfterItem(i), j.after, AfterItem(j));
    AtHead(text, p + |i.after|, AfterItem(i));
    AtHead(text, p + |i.after|, AfterItem(j));
    if i.tail.Comma? {
      AtBoth(text, p + |i.after|, [COMMA], i.tail.before + RenderItems(i.tail.rest));
      AtBoth(text, p + |i.after|, [COMMA], j.tail.before + RenderItems(j.tail.rest));
      OneItems(text, p + |i.after| + 1, i.tail.before, i.tail.rest, j.tail.before, j.tail.rest);
    }
  }

  lemma {:induction false} ItemParts(text: Text, pos: nat, w: Ws, i: Items)
    requires ValidItems(i) && At(text, pos, w + RenderItems(i))
    ensures var p := pos + |w| + |Render(i.v)|;
            At(text, pos, w + Render(i.v)) && Ends(i.v, text, p) && At(text, p, i.after + AfterItem(i))
  {
    hide At, Render, Separator, AfterItem, RenderItems, Skippable;
    AtBoth(text, pos, w, RenderItems(i));
    ItemSeparates(text, pos + |w|, i);
    AtJoin(text, pos, w, Render(i.v));
    ItemsAre(i);
    AtBoth(text, pos + |w|, Render(i.v), i.after + AfterItem(i));
  }

  lemma {:induction false} OneMembers(text: Text, pos: nat, w: Ws, m: Members, x: Ws, n: Members)
    requires ValidMembers(m) && At(text, pos, w + RenderMembers(m))
    requires ValidMembers(n) && At(text, pos, x + RenderMembers(n))
    ensures w == x && m == n
    decreases m, 2
  {
    hide At, Render, RenderMembers, Separator, Skippable, RenderStr, ParseKey, AllWs;
    OneKey(text, pos, w, m, x, n);
    MemberParts(text, pos, w, m);
    MemberParts(text, pos, x, n);
    var u := ValueAt(pos + |w|, m);
    OneValue(text, u, m.gap, m.v, n.gap, n.v);
    var p := u + |m.gap| + |Render(m.v)|;
    AfterMemberIs(m);
    AfterMemberIs(n);
    hide AfterMember;
    OneGap(text, p, m.after, AfterMember(m), n.after, AfterMember(n));
    AtHead(text, p + |m.after|, AfterMember(m));
    AtHead(text, p + |m.after|, AfterMember(n));
    if m.tail.Comma? {
      AtBoth(text, p + |m.after|, [COMMA], m.tail.before + RenderMembers(m.tail.rest));
      AtBoth(text, p + |m.after|, [COMMA], n.tail.before + RenderMembers(n.tail.rest));
      OneMembers(text, p + |m.after| + 1, m.tail.before, m.tail.rest, n.tail.before, n.tail.rest);
    }
  }

  lemma {:induction false} MemberParts(text: Text, pos: nat, w: Ws, m: Members)
    requires ValidMembers(m) && At(text, pos, w + RenderMembers(m))
    ensures var u := ValueAt(pos + |w|, m);
            var p := u + |m.gap| + |Render(m.v)|;
            At(text, u, m.gap + Render(m.v)) && Ends(m.v, text, p) && At(text, p, m.after + AfterMember(m))
  {
    hide At, Render, Separator, AfterMember, RenderMembers, Skippable, RenderStr, ParseKey;
    MemberSeparates(text, pos, w, m);
    AtBoth(text, pos, w, RenderMembers(m));
    MembersAre(m);
    var key := RenderStr(m.key);
    AtBoth(text, pos + |w|, key, m.colon + ([COLON] + RenderMemberValue(m)));
    AtBoth(text, pos + |w| + |key|, m.colon, [COLON] + RenderMemberValue(m));
    AtBoth(text, pos + |w| + |key| + |m.colon|, [COLON], RenderMemberValue(m));
    MemberValueIs(m);
    AtMiddlePair(text, ValueAt(pos + |w|, m), m.gap, Render(m.v), m.after + AfterMember(m));
  }

  lemma {:induction false} OneKey(text: Text, pos: nat, w: Ws, m: Members, x: Ws, n: Members)
    requires ValidMembers(m) && At(text, pos, w + RenderMembers(m))
    requires ValidMembers(n) && At(text, pos, x + RenderMembers(n))
    ensures w == x && m.key == n.key && m.colon == n.colon
  {
    hide At, RenderMembers, RenderStr, Skippable, RenderMemberValue, AllWs;
    MembersStart(m);
    MembersStart(n);
    OneGap(text, pos, w, RenderMembers(m), x, RenderMembers(n));
    MembersAre(m);
    MembersAre(n);
    var q := pos + |w|;
    AtBoth(text, q, RenderStr(m.key), m.colon + ([COLON] + RenderMemberValue(m)));
    AtBoth(text, q, RenderStr(n.key), n.colon + ([COLON] + RenderMemberValue(n)));
    OneString(text, q, m.key, n.key);
    OneGap(text, q + |RenderStr(m.key)|, m.colon, [COLON] + RenderMemberValue(m),
           n.colon, [COLON] + RenderMemberValue(n));
  }

  // ---------------------------------------------------------------------
  // JSON itself
  // ---------------------------------------------------------------------

  const TRUE: Text := [0x74, 0x72, 0x75, 0x65]
  const FALSE: Text := [0x66, 0x61, 0x6c, 0x73, 0x65]

  ghost predicate JsonLiteral(t: Text)
  {
    t == TRUE || t == FALSE || t == NULL || exists n: Number :: n.Valid() && n.Render() == t
  }

  /** A string of RFC 8259, section 7: no control character stands for itself. */
  ghost predicate JsonStr(s: StrLit)
  {
    ValidStr(s) && forall k | 0 <= k < |s| && s[k].Raw? :: s[k].u >= 0x20
  }

  ghost predicate Json(v: Value)
  {
    match v
    case Str(s) => JsonStr(s)
    case Literal(t) => JsonLiteral(t)
    case Arr(_, items) => items.Some? ==> JsonItems(items.value)
    case Obj(_, members) => members.Some? ==> JsonMembers(members.value)
  }

  ghost predicate JsonItems(i: Items)
  {
    Json(i.v) && (i.tail.Comma? ==> JsonItems(i.tail.rest))
  }

  ghost predicate JsonMembers(m: Members)
  {
    JsonStr(m.key) && Json(m.v) && (m.tail.Comma? ==> JsonMembers(m.tail.rest))
  }

  lemma {:induction false} JsonLiteralIsValid(t: Text)
    requires JsonLiteral(t)
    ensures ValidLiteral(t)
  {
    if t != TRUE && t != FALSE && t != NULL {
      var n: Number :| n.Valid() && n.Render() == t;
      NumbersAreLiterals(n);
    }
  }

  /** Every value of RFC 8259 is among those the parser takes. */
  lemma {:induction false} JsonIsTaken(v: Value)
    requires Json(v)
    ensures Valid(v)
    decreases v, 0
  {
    match v {
      case Str(_) =>
      case Literal(t) =>
        JsonLiteralIsValid(t);
      case Arr(_, items) =>
        if items.Some? {
          JsonItemsAreTaken(items.value);
        }
      case Obj(_, members) =>
        if members.Some? {
          JsonMembersAreTaken(members.value);
        }
    }
  }

  lemma {:induction false} JsonItemsAreTaken(i: Items)
    requires JsonItems(i)
    ensures ValidItems(i) && i.v != MISSING
    decreases i, 1
  {
    JsonIsTaken(i.v);
    if i.tail.Comma? {
      JsonItemsAreTaken(i.tail.rest);
    }
  }

  lemma {:induction false} JsonMembersAreTaken(m: Members)
    requires JsonMembers(m)
    ensures ValidMembers(m)
    decreases m, 1
  {
    JsonIsTaken(m.v);
    if m.tail.Comma? {
      JsonMembersAreTaken(m.tail.rest);
    }
  }

  /** Of a text that is read, it is JSON that was read if and only if the one object written there has
      only numbers, `true`, `false` and `null` for literals, no value missing, and no control
      character in a string: on all else the parser takes, malformed input does not abort. */
  lemma {:induction false} JsonWasReadExactlyWhen(text: Text, w: Ws, v: Value, end: nat)
    requires ParseCtx(text).Ok? && Writes(text, w, v, end)
    ensures v.Obj? && ParseCtx(text).pos == end
    ensures (exists x: Ws, y: Value :: Json(y) && x + Render(y) <= text) <==> Json(v)
  {
    hide ParseCtx, Render, Skippable, AllWs, Json, ReadCtxFields;
    CtxParses(text, w, v);
    AtFront(text, w + Render(v));
    forall x: Ws, y: Value | Json(y) && x + Render(y) <= text
      ensures y == v
    {
      JsonIsTaken(y);
      AtFront(text, x + Render(y));
      Begins(text, 0, w, v);
      Begins(text, 0, x, y);
      OneValue(text, 0, w, v, x, y);
    }
  }

  /** `{"x":}`: no value stands where one must. */
  const NO_VALUE: Text := [OPEN_BRACE, QUOTE, 0x78, QUOTE, COLON, CLOSE_BRACE]

  /** Malformed input need not abort: a member without a value is read as if it were not there, and
      no JSON value is written so. */
  lemma {:induction false} AMissingValueIsTaken(w: Ws, v: Value)
    ensures ParseCtx(NO_VALUE) == Ok(EMPTY_CTX, 6)
    ensures Json(v) ==> w + Render(v) != NO_VALUE
  {
    var m := Members([Raw(0x78)], [], [], MISSING, [], End);
    var obj := Obj([], Some(m));
    NoValueIsWritten();
    CtxParses(NO_VALUE, [], obj);
    hide *;
    if Json(v) {
      NoJsonIsWrittenSo(w, v);
    }
  }

  lemma {:induction false} NoValueIsWritten()
    ensures var v := Obj([], Some(Members([Raw(0x78)], [], [], MISSING, [], End)));
            && Valid(v) && Render(v) == NO_VALUE && [] + Render(v) <= NO_VALUE && ReadCtx(v) == Some(EMPTY_CTX)
  {
  }

  lemma {:induction false} NoJsonIsWrittenSo(w: Ws, v: Value)
    requires Json(v)
    ensures w + Render(v) != NO_VALUE
  {
    JsonIsTaken(v);
    if w + Render(v) == NO_VALUE {
      OnlyMissing(w, v);
      assert JsonMembers(v.members.value);
      JsonIsTaken(v.members.value.v);
    }
  }

  /** A value written so has one member, without a value. */
  lemma {:induction false} OnlyMissing(w: Ws, v: Value)
    requires Valid(v) && w + Render(v) == NO_VALUE
    ensures v.Obj? && v.members.Some? && v.members.value.v == MISSING
  {
    AtFront(NO_VALUE, w + Render(v));
    NoGap(NO_VALUE, 0, w, Render(v));
    NoValueOpens();
    RenderStarts(v);
    ObjectOpens(NO_VALUE, 0, v.open, v.members);
    NothingInIt(v.members.value);
  }

  lemma {:induction false} NoValueOpens()
    ensures Opening(NO_VALUE, 0, OPEN_BRACE, CLOSE_BRACE) == Ok(false, 1)
  {
  }

  lemma {:induction false} NoValueNamesX()
    ensures ParseKey(NO_VALUE, 1) == Ok([0x78], 5)
  {
    var key := [Raw(0x78)];
    assert RenderBody(key[1..]) == [QUOTE];
    assert [] + (RenderStr(key) + ([] + ([COLON] + [CLOSE_BRACE]))) == NO_VALUE[1..];
    assert NO_VALUE[1..] == NO_VALUE[1..1 + 5];
    assert Decode(key) == [key[0].Value()] + Decode(key[1..]) == [0x78];
    assert |RenderStr(key)| == 3;
    KeyParses(NO_VALUE, 1, [], key, [], [CLOSE_BRACE]);
  }

  lemma {:induction false} NothingInIt(m: Members)
    requires ValidMembers(m) && At(NO_VALUE, 1, [] + RenderMembers(m))
    ensures m.v == MISSING
  {
    NoValueNamesX();
    MemberSeparates(NO_VALUE, 1, [], m);
    NoGap(NO_VALUE, 5, m.gap, Render(m.v));
    if m.v != MISSING {
      RenderStarts(m.v);
    }
  }
}
