/** `CanonicalWriter` and the two functions that fill a buffer, as they run. */
module CanonicalWriter {
  import opened Common
  import opened Canonical
  import Utf8

  /** The bytes of some parts, framed. */
  ghost function Out(parts: Parts): Bytes
  {
    FrameAll(EncodeAll(parts))
  }

  lemma {:induction false} OutAppend(before: Bytes, a: Parts, b: Parts)
    ensures (before + Out(a)) + Out(b) == before + Out(a + b)
  {
    OutBoth(a, b);
    assert (before + Out(a)) + Out(b) == before + (Out(a) + Out(b));
  }

  lemma {:induction false} OutBoth(a: Parts, b: Parts)
    ensures Out(a + b) == Out(a) + Out(b)
  {
    if a == [] {
      assert a + b == b;
      assert Out(a) == [];
    } else {
      hide Frame;
      assert (a + b)[1..] == a[1..] + b;
      OutBoth(a[1..], b);
      OutHead(a);
      OutHead(a + b);
      var f := Frame(Utf8.Encode(a[0]));
      assert f + (Out(a[1..]) + Out(b)) == (f + Out(a[1..])) + Out(b);
    }
  }

  lemma {:induction false} OutHead(a: Parts)
    requires a != []
    ensures Out(a) == Frame(Utf8.Encode(a[0])) + Out(a[1..])
  {
    assert EncodeAll(a)[1..] == EncodeAll(a[1..]);
  }

  lemma {:induction false} OutOne(part: string)
    ensures Out([part]) == Frame(Utf8.Encode(part))
  {
    OutHead([part]);
    assert [part][1..] == [] && Out([]) == [];
  }

  class Writer {
    var chunks: seq<Bytes>
    var length: nat

    ghost predicate Valid()
      reads this
    {
      length == |Flatten(chunks)|
    }

    ghost function Written(): Bytes
      reads this
    {
      Flatten(chunks)
    }

    constructor ()
      ensures Valid() && Written() == []
    {
      chunks := [];
      length := 0;
    }

    method Part(part: string)
      requires Valid()
      modifies this
      ensures Valid() && Written() == old(Written()) + Out([part])
    {
      var bytes := Utf8.Encode(part);
      var size := U32(|bytes|);
      FlattenAppend(chunks, [size, bytes]);
      assert Flatten([size, bytes]) == size + bytes by {
        FlattenOne(bytes);
        assert [size, bytes][1..] == [bytes];
      }
      OutOne(part);
      chunks := chunks + [size, bytes];
      length := length + |size| + |bytes|;
    }

    method Field(name: string, value: string)
      requires Valid()
      modifies this
      ensures Valid() && Written() == old(Written()) + Out(FieldParts(name, value))
    {
      hide Out;
      OutAppend(Written(), [name], [value]);
      assert [name] + [value] == FieldParts(name, value);
      Part(name);
      Part(value);
    }

    method Number(name: string, value: nat)
      requires Valid()
      modifies this
      ensures Valid() && Written() == old(Written()) + Out(NumberParts(name, value))
    {
      Field(name, Utf8.Decimal(value));
    }

    method Bool(name: string, value: bool)
      requires Valid()
      modifies this
      ensures Valid() && Written() == old(Written()) + Out(BoolParts(name, value))
    {
      Field(name, if value then "true" else "false");
    }

    method Optional(name: string, value: Maybe<string>)
      requires Valid()
      modifies this
      ensures Valid() && Written() == old(Written()) + Out(OptionParts(name, value))
    {
      hide Out;
      ghost var w := Written();
      Part(name);
      if value.Just? {
        Part("some");
        Part(value.value);
        OutAppend(w, [name], ["some"]);
        OutAppend(w, [name] + ["some"], [value.value]);
        assert [name] + ["some"] + [value.value] == OptionParts(name, value);
      } else {
        Part("none");
        OutAppend(w, [name], ["none"]);
        assert [name] + ["none"] == OptionParts(name, value);
      }
    }

    method Count(name: string, count: nat)
      requires Valid()
      modifies this
      ensures Valid() && Written() == old(Written()) + Out(NumberParts(name, count))
    {
      Number(name, count);
    }

    method Strings(name: string, values: seq<string>)
      requires Valid()
      modifies this
      ensures Valid() && Written() == old(Written()) + Out(StringsParts(name, values))
    {
      hide Out;
      ghost var w := Written();
      Count(name, |values|);
      var i := 0;
      assert NumberParts(name, |values|) + values[..0] == NumberParts(name, |values|);
      while i < |values|
        invariant 0 <= i <= |values| && Valid()
        invariant Written() == w + Out(NumberParts(name, |values|) + values[..i])
      {
        OutAppend(w, NumberParts(name, |values|) + values[..i], [values[i]]);
        assert NumberParts(name, |values|) + values[..i] + [values[i]] == NumberParts(name, |values|) + values[..i + 1];
        Part(values[i]);
        i := i + 1;
      }
      assert values[..i] == values;
    }

    method WriteCaller(c: Caller)
      requires Valid()
      modifies this
      ensures Valid() && Written() == old(Written()) + Out(CallerParts(c))
    {
      hide Out, NumberParts, FieldParts, OptionParts;
      ghost var w := Written();
      Number("caller_pid", c.pid);
      Field("caller_name", c.name);
      Field("caller_command", c.command);
      Optional("caller_exe", c.exe);
      Join4(w, NumberParts("caller_pid", c.pid), FieldParts("caller_name", c.name),
            FieldParts("caller_command", c.command), OptionParts("caller_exe", c.exe));
    }

    method Callers(callers: seq<Caller>)
      requires Valid()
      modifies this
      ensures Valid() && Written() == old(Written()) + Out(CallersParts(callers))
    {
      hide Out, NumberParts, CallerParts;
      ghost var w, head := Written(), NumberParts("callers", |callers|);
      Count("callers", |callers|);
      var i := 0;
      assert head + CallerListParts(callers[..0]) == head;
      while i < |callers|
        invariant 0 <= i <= |callers| && Valid()
        invariant Written() == w + Out(head + CallerListParts(callers[..i]))
      {
        OutAppend(w, head + CallerListParts(callers[..i]), CallerParts(callers[i]));
        CallerListSnoc(head, callers, i);
        WriteCaller(callers[i]);
        i := i + 1;
      }
      assert callers[..i] == callers;
    }

    method WriteSecret(s: SecretAsk)
      requires Valid()
      modifies this
      ensures Valid() && Written() == old(Written()) + Out(SecretParts(s))
    {
      hide Out, FieldParts, OptionParts, StringsParts;
      ghost var w := Written();
      Field("secret_name", s.name);
      Field("secret_provider", s.provider);
      Field("secret_locator", s.locator);
      Optional("secret_description", s.description);
      ghost var mid := Written();
      Optional("secret_reason", s.reason);
      Strings("secret_requested_by", OrElse(s.requestedBy, []));
      Optional("secret_declared_as", s.declaredAs);
      ghost var p4 := OptionParts("secret_description", s.description);
      ghost var p5 := OptionParts("secret_reason", s.reason);
      ghost var p6 := StringsParts("secret_requested_by", OrElse(s.requestedBy, []));
      ghost var p7 := OptionParts("secret_declared_as", s.declaredAs);
      Join3(mid, p5, p6, p7);
      Join5(w, FieldParts("secret_name", s.name), FieldParts("secret_provider", s.provider),
            FieldParts("secret_locator", s.locator), p4, p5 + (p6 + p7));
    }

    method Secrets(secrets: seq<SecretAsk>)
      requires Valid()
      modifies this
      ensures Valid() && Written() == old(Written()) + Out(SecretsParts(secrets))
    {
      hide Out, NumberParts, SecretParts;
      ghost var w, head := Written(), NumberParts("secrets", |secrets|);
      Count("secrets", |secrets|);
      var i := 0;
      assert head + SecretListParts(secrets[..0]) == head;
      while i < |secrets|
        invariant 0 <= i <= |secrets| && Valid()
        invariant Written() == w + Out(head + SecretListParts(secrets[..i]))
      {
        OutAppend(w, head + SecretListParts(secrets[..i]), SecretParts(secrets[i]));
        SecretListSnoc(head, secrets, i);
        WriteSecret(secrets[i]);
        i := i + 1;
      }
      assert secrets[..i] == secrets;
    }

    /** The chunks laid out in one buffer of exactly their length. */
    method Finish() returns (bytes: array<Byte>)
      requires Valid()
      ensures fresh(bytes) && bytes[..] == Written()
    {
      bytes := new Byte[length](_ => 0);
      var offset, i := 0, 0;
      assert chunks[0..] == chunks;
      while i < |chunks|
        invariant 0 <= i <= |chunks| && 0 <= offset && offset + |Flatten(chunks[i..])| == bytes.Length
        invariant bytes[..offset] + Flatten(chunks[i..]) == Written()
      {
        ghost var rest, before := chunks[i..], bytes[..offset];
        assert rest[0] == chunks[i] && rest[1..] == chunks[i + 1..];
        FlattenHead(before, rest);
        SetBytes(bytes, chunks[i], offset);
        assert bytes[..offset + |chunks[i]|] == before + chunks[i];
        offset := offset + |chunks[i]|;
        i := i + 1;
      }
      assert bytes[..offset] == bytes[..];
    }
  }

  /** `TypedArray.set`: copy `chunk` into the buffer at `offset`. */
  method SetBytes(bytes: array<Byte>, chunk: Bytes, offset: nat)
    requires offset + |chunk| <= bytes.Length
    modifies bytes
    ensures bytes[..] == old(bytes[..offset]) + chunk + old(bytes[offset + |chunk|..])
  {
    forall k | 0 <= k < |chunk| {
      bytes[offset + k] := chunk[k];
    }
  }

  lemma {:induction false} CallerListSnoc(head: Parts, cs: seq<Caller>, i: nat)
    requires i < |cs|
    ensures head + CallerListParts(cs[..i]) + CallerParts(cs[i]) == head + CallerListParts(cs[..i + 1])
  {
    hide CallerListParts, CallerParts;
    CallerListAppend(cs[..i], cs[i]);
    assert cs[..i] + [cs[i]] == cs[..i + 1];
  }

  lemma {:induction false} CallerListAppend(cs: seq<Caller>, c: Caller)
    ensures CallerListParts(cs + [c]) == CallerListParts(cs) + CallerParts(c)
  {
    hide CallerParts;
    if cs == [] {
      assert cs + [c] == [c] && [c][1..] == [];
    } else {
      assert (cs + [c])[1..] == cs[1..] + [c];
      CallerListAppend(cs[1..], c);
    }
  }

  lemma {:induction false} SecretListSnoc(head: Parts, ss: seq<SecretAsk>, i: nat)
    requires i < |ss|
    ensures head + SecretListParts(ss[..i]) + SecretParts(ss[i]) == head + SecretListParts(ss[..i + 1])
  {
    hide SecretListParts, SecretParts;
    SecretListAppend(ss[..i], ss[i]);
    assert ss[..i] + [ss[i]] == ss[..i + 1];
  }

  lemma {:induction false} SecretListAppend(ss: seq<SecretAsk>, s: SecretAsk)
    ensures SecretListParts(ss + [s]) == SecretListParts(ss) + SecretParts(s)
  {
    hide SecretParts;
    if ss == [] {
      assert ss + [s] == [s] && [s][1..] == [];
    } else {
      assert (ss + [s])[1..] == ss[1..] + [s];
      SecretListAppend(ss[1..], s);
    }
  }

  lemma {:induction false} Join3(w: Bytes, a: Parts, b: Parts, c: Parts)
    ensures w + Out(a) + Out(b) + Out(c) == w + Out(a + (b + c))
  {
    hide Out;
    OutAppend(w + Out(a), b, c);
    OutAppend(w, a, b + c);
  }

  lemma {:induction false} Join4(w: Bytes, a: Parts, b: Parts, c: Parts, d: Parts)
    ensures w + Out(a) + Out(b) + Out(c) + Out(d) == w + Out(a + (b + (c + d)))
  {
    hide Out;
    Join3(w + Out(a), b, c, d);
    OutAppend(w, a, b + (c + d));
  }

  lemma {:induction false} Join5(w: Bytes, a: Parts, b: Parts, c: Parts, d: Parts, e: Parts)
    ensures w + Out(a) + Out(b) + Out(c) + Out(d) + Out(e) == w + Out(a + (b + (c + (d + e))))
  {
    hide Out;
    Join4(w + Out(a), b, c, d, e);
    OutAppend(w, a, b + (c + (d + e)));
  }

  method WriteAnchor(writer: Writer, anchor: Maybe<Anchor>)
    requires writer.Valid()
    modifies writer
    ensures writer.Valid() && writer.Written() == old(writer.Written()) + Out(AnchorParts(anchor))
  {
    hide Out, NumberParts, FieldParts, OptionParts;
    if anchor.Just? {
      ghost var w := writer.Written();
      var a := anchor.value;
      writer.Part("anchor_some");
      writer.Field("anchor_name", a.name);
      writer.Number("anchor_pid", a.pid);
      writer.Field("anchor_kind", a.kind);
      writer.Optional("anchor_command", a.command);
      Join5(w, ["anchor_some"], FieldParts("anchor_name", a.name), NumberParts("anchor_pid", a.pid),
            FieldParts("anchor_kind", a.kind), OptionParts("anchor_command", a.command));
    } else {
      writer.Part("anchor_none");
    }
  }

  method WritePeer(writer: Writer, peer: Maybe<Peer>)
    requires writer.Valid()
    modifies writer
    ensures writer.Valid() && writer.Written() == old(writer.Written()) + Out(PeerParts(peer))
  {
    hide Out, NumberParts, FieldParts, OptionParts;
    if peer.Just? {
      ghost var w := writer.Written();
      var p := peer.value;
      writer.Part("declared_by_some");
      writer.Number("declared_by_pid", p.pid);
      writer.Field("declared_by_name", p.name);
      writer.Optional("declared_by_exe", p.exe);
      Join4(w, ["declared_by_some"], NumberParts("declared_by_pid", p.pid), FieldParts("declared_by_name", p.name),
            OptionParts("declared_by_exe", p.exe));
    } else {
      writer.Part("declared_by_none");
    }
  }

  method WriteSubject(writer: Writer, subject: Subject)
    requires writer.Valid()
    modifies writer
    ensures writer.Valid() && writer.Written() == old(writer.Written()) + Out(SubjectParts(subject))
  {
    hide Out, NumberParts, FieldParts, OptionParts, BoolParts, CallersParts, SecretsParts, AnchorParts, PeerParts;
    ghost var w := writer.Written();
    match subject {
      case Wrap(wrap, cwd, truncated, callers, secrets, remember) =>
        writer.Part("wrap");
        writer.Field("wrap", wrap);
        writer.Field("cwd", cwd);
        writer.Bool("callers_truncated", OrElse(truncated, false));
        ghost var mid := writer.Written();
        writer.Callers(callers);
        writer.Secrets(secrets);
        writer.Bool("allow_remember", remember);
        ghost var tail := CallersParts(callers) + (SecretsParts(secrets) + BoolParts("allow_remember", remember));
        Join3(mid, CallersParts(callers), SecretsParts(secrets), BoolParts("allow_remember", remember));
        Join5(w, ["wrap"], FieldParts("wrap", wrap), FieldParts("cwd", cwd),
              BoolParts("callers_truncated", OrElse(truncated, false)), tail);
      case SshSign(wrap, cwd, truncated, callers, keyId, fingerprint, reason, anchor) =>
        writer.Part("ssh_sign");
        writer.Field("wrap", wrap);
        writer.Field("cwd", cwd);
        writer.Bool("callers_truncated", OrElse(truncated, false));
        ghost var mid := writer.Written();
        writer.Callers(callers);
        writer.Field("key_id", keyId);
        writer.Field("fingerprint", fingerprint);
        writer.Optional("reason", reason);
        WriteAnchor(writer, anchor);
        ghost var tail := CallersParts(callers) + (FieldParts("key_id", keyId) +
          (FieldParts("fingerprint", fingerprint) + (OptionParts("reason", reason) + AnchorParts(anchor))));
        Join5(mid, CallersParts(callers), FieldParts("key_id", keyId), FieldParts("fingerprint", fingerprint),
              OptionParts("reason", reason), AnchorParts(anchor));
        Join5(w, ["ssh_sign"], FieldParts("wrap", wrap), FieldParts("cwd", cwd),
              BoolParts("callers_truncated", OrElse(truncated, false)), tail);
      case ScopedAgent(scope, reference, guest, declared) =>
        writer.Part("scoped_agent");
        writer.Field("scope", scope);
        writer.Field("reference", reference);
        writer.Optional("guest_chain", guest);
        WritePeer(writer, declared);
        Join5(w, ["scoped_agent"], FieldParts("scope", scope), FieldParts("reference", reference),
              OptionParts("guest_chain", guest), PeerParts(declared));
    }
  }

  /** The exact bytes a decision about `ask` is signed against. */
  method CanonicalAskBytes(ask: Ask) returns (bytes: array<Byte>)
    ensures fresh(bytes) && bytes[..] == CanonicalBytes(ask)
  {
    hide StringsParts, SubjectParts;
    var writer := new Writer();
    writer.Part(CONTRACT);
    writer.Strings("command", ask.command);
    WriteSubject(writer, ask.subject);
    Join3([], [CONTRACT], StringsParts("command", ask.command), SubjectParts(ask.subject));
    assert [] + Out(AskParts(ask)) == CanonicalBytes(ask);
    bytes := writer.Finish();
  }

  /** The bytes of a signed decision: four fields, each behind its length. */
  method SignedBytes(payload: Payload) returns (bytes: array<Byte>)
    ensures fresh(bytes) && bytes[..] == PayloadBytes(payload)
  {
    var fields := EncodeAll(PayloadFields(payload));
    var byteLength := 0;
    var i := 0;
    assert fields[0..] == fields;
    while i < |fields|
      invariant 0 <= i <= |fields| && byteLength + |FrameAll(fields[i..])| == |FrameAll(fields)|
    {
      assert fields[i..][1..] == fields[i + 1..];
      byteLength := byteLength + 4 + |fields[i]|;
      i := i + 1;
    }
    bytes := new Byte[byteLength](_ => 0);
    var offset := 0;
    i := 0;
    while i < |fields|
      invariant 0 <= i <= |fields| && 0 <= offset && offset + |FrameAll(fields[i..])| == bytes.Length
      invariant bytes[..offset] + FrameAll(fields[i..]) == FrameAll(fields)
    {
      ghost var rest, before := fields[i..], bytes[..offset];
      assert rest[0] == fields[i] && rest[1..] == fields[i + 1..];
      FrameHead(before, rest);
      SetBytes(bytes, U32(|fields[i]|), offset);
      assert bytes[..offset + 4] == before + U32(|fields[i]|);
      offset := offset + 4;
      SetBytes(bytes, fields[i], offset);
      assert bytes[..offset + |fields[i]|] == before + U32(|fields[i]|) + fields[i];
      offset := offset + |fields[i]|;
      i := i + 1;
    }
    assert bytes[..offset] == bytes[..];
  }

  lemma {:induction false} FrameHead(before: Bytes, fields: seq<Bytes>)
    requires fields != []
    ensures before + FrameAll(fields) == before + U32(|fields[0]|) + fields[0] + FrameAll(fields[1..])
  {
  }
}
