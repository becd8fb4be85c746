/** The host's side of the same contract, packages/secreq/src/link/canonical.rs and sig.rs: the
    bytes it computes from the projection it sends, against those the device computes. */
module HostCanonical {
  import opened Common
  import opened Canonical
  import Utf8

  // ---------------------------------------------------------------------
  // The projection sent to linked devices
  // ---------------------------------------------------------------------

  datatype LinkCaller = LinkCaller(pid: nat, name: string, command: string, exe: Option<string>)

  datatype LinkSecret = LinkSecret(
    name: string, provider: string, locator: string, description: Option<string>, reason: Option<string>,
    requestedBy: seq<string>, declaredAs: Option<string>)

  datatype AnchorKind = Session | ForwardedSsh

  datatype LinkAnchor = LinkAnchor(name: string, pid: nat, kind: AnchorKind, command: Option<string>)

  datatype LinkPeer = LinkPeer(pid: nat, name: string, exe: Option<string>)

  datatype LinkSubject =
    | LinkWrap(wrap: string, cwd: string, callers: seq<LinkCaller>, truncated: bool, secrets: seq<LinkSecret>,
               allowRemember: bool)
    | LinkSsh(wrap: string, cwd: string, callers: seq<LinkCaller>, truncated: bool, keyId: string,
              fingerprint: string, reason: Option<string>, anchor: Option<LinkAnchor>)
    | LinkAgent(scope: string, reference: string, guestChain: Option<string>, declaredBy: Option<LinkPeer>)

  datatype LinkAsk = LinkAsk(command: seq<string>, subject: LinkSubject)

  // ---------------------------------------------------------------------
  // The projection, as the device decodes it
  // ---------------------------------------------------------------------

  /** What the host does not have it sends as `null`. */
  function Received(o: Option<string>): Maybe<string>
  {
    if o.Some? then Just(o.value) else Null
  }

  function ReceivedCaller(c: LinkCaller): Caller
  {
    Caller(c.pid, c.name, c.command, Received(c.exe))
  }

  function ReceivedCallers(cs: seq<LinkCaller>): (r: seq<Caller>)
    ensures |r| == |cs|
  {
    seq(|cs|, k requires 0 <= k < |cs| => ReceivedCaller(cs[k]))
  }

  function ReceivedSecret(s: LinkSecret): SecretAsk
  {
    SecretAsk(s.name, s.provider, s.locator, Received(s.description), Received(s.reason), Just(s.requestedBy),
              Received(s.declaredAs))
  }

  function ReceivedSecrets(ss: seq<LinkSecret>): (r: seq<SecretAsk>)
    ensures |r| == |ss|
  {
    seq(|ss|, k requires 0 <= k < |ss| => ReceivedSecret(ss[k]))
  }

  function KindText(kind: AnchorKind): string
  {
    match kind case Session => "session" case ForwardedSsh => "forwarded_ssh"
  }

  function ReceivedAnchor(a: Option<LinkAnchor>): Maybe<Anchor>
  {
    match a
    case None => Null
    case Some(x) => Just(Anchor(x.name, x.pid, KindText(x.kind), Received(x.command)))
  }

  function ReceivedPeer(p: Option<LinkPeer>): Maybe<Peer>
  {
    match p case None => Null case Some(x) => Just(Peer(x.pid, x.name, Received(x.exe)))
  }

  function ReceivedAsk(ask: LinkAsk): Ask
  {
    Ask(ask.command,
        match ask.subject
        case LinkWrap(wrap, cwd, callers, truncated, secrets, remember) =>
          Wrap(wrap, cwd, Just(truncated), ReceivedCallers(callers), ReceivedSecrets(secrets), remember)
        case LinkSsh(wrap, cwd, callers, truncated, keyId, fingerprint, reason, anchor) =>
          SshSign(wrap, cwd, Just(truncated), ReceivedCallers(callers), keyId, fingerprint, Received(reason),
                  ReceivedAnchor(anchor))
        case LinkAgent(scope, reference, guest, declared) =>
          ScopedAgent(scope, reference, Received(guest), ReceivedPeer(declared)))
  }

  // ---------------------------------------------------------------------
  // The host's writer
  // ---------------------------------------------------------------------

  /** `u32::to_be_bytes`. */
  function BigEndian(n: nat): Bytes
    requires n < 0x1_0000_0000
  {
    [n / 256 / 256 / 256, n / 256 / 256 % 256, n / 256 % 256, n % 256]
  }

  lemma {:induction false} BigEndianIsU32(n: nat)
    requires n < 0x1_0000_0000
    ensures BigEndian(n) == U32(n)
  {
    assert n / 256 / 256 == n / 0x1_0000;
    assert n / 256 / 256 / 256 == n / 0x100_0000;
  }

  lemma {:induction false} EncodeSnoc(ps: Parts, p: string)
    ensures EncodeAll(ps + [p]) == EncodeAll(ps) + [Utf8.Encode(p)]
  {
    if ps == [] {
      assert ps + [p] == [p] && [p][1..] == [];
    } else {
      assert (ps + [p])[1..] == ps[1..] + [p];
      EncodeSnoc(ps[1..], p);
    }
  }

  lemma {:induction false} FrameSnoc(ps: seq<Bytes>, p: Bytes)
    ensures FrameAll(ps + [p]) == FrameAll(ps) + Frame(p)
  {
    hide Frame;
    if ps == [] {
      assert ps + [p] == [p] && [p][1..] == [];
    } else {
      assert (ps + [p])[1..] == ps[1..] + [p];
      FrameSnoc(ps[1..], p);
    }
  }

  lemma {:induction false} FramableSnoc(ps: seq<Bytes>, p: Bytes)
    ensures Framable(ps + [p]) <==> Framable(ps) && |p| < 0x1_0000_0000
  {
    var more := ps + [p];
    assert more[|ps|] == p && forall k | 0 <= k < |ps| :: more[k] == ps[k];
  }

  /** The bytes so far; a part too long for its length stops the writer for good. */
  class HostWriter {
    var bytes: Bytes
    var panicked: bool
    /** The parts asked for so far. */
    ghost var parts: Parts

    ghost predicate Valid()
      reads this
    {
      && (panicked <==> !Framable(EncodeAll(parts)))
      && (!panicked ==> bytes == FrameAll(EncodeAll(parts)))
    }

    constructor ()
      ensures Valid() && parts == []
    {
      bytes, panicked, parts := [], false, [];
    }

    method Part(part: string)
      requires Valid()
      modifies this
      ensures Valid() && parts == old(parts) + [part]
    {
      var text := Utf8.Encode(part);
      EncodeSnoc(parts, part);
      FramableSnoc(EncodeAll(parts), text);
      FrameSnoc(EncodeAll(parts), text);
      hide FrameAll, EncodeAll, Framable, U32, BigEndian;
      if |text| < 0x1_0000_0000 {
        BigEndianIsU32(|text|);
        assert bytes + Frame(text) == bytes + BigEndian(|text|) + text;
        bytes := bytes + BigEndian(|text|) + text;
      } else {
        panicked := true;
      }
      parts := parts + [part];
    }

    method Field(name: string, value: string)
      requires Valid()
      modifies this
      ensures Valid() && parts == old(parts) + FieldParts(name, value)
    {
      hide EncodeAll, FrameAll, Framable;
      Part(name);
      Part(value);
    }

    method Number(name: string, value: nat)
      requires Valid()
      modifies this
      ensures Valid() && parts == old(parts) + NumberParts(name, value)
    {
      Field(name, Utf8.Decimal(value));
    }

    method Bool(name: string, value: bool)
      requires Valid()
      modifies this
      ensures Valid() && parts == old(parts) + BoolParts(name, value)
    {
      Field(name, if value then "true" else "false");
    }

    method Optional(name: string, value: Option<string>)
      requires Valid()
      modifies this
      ensures Valid() && parts == old(parts) + OptionParts(name, Received(value))
    {
      hide EncodeAll, FrameAll, Framable;
      Part(name);
      match value {
        case Some(text) =>
          Part("some");
          Part(text);
        case None =>
          Part("none");
      }
    }

    method Strings(name: string, values: seq<string>)
      requires Valid()
      modifies this
      ensures Valid() && parts == old(parts) + StringsParts(name, values)
    {
      hide EncodeAll, FrameAll, Framable, NumberParts;
      Number(name, |values|);
      ghost var head := parts;
      for k := 0 to |values|
        invariant Valid() && parts == head + values[..k]
      {
        assert values[..k + 1] == values[..k] + [values[k]];
        Part(values[k]);
      }
      assert values[..|values|] == values;
    }

    method Callers(callers: seq<LinkCaller>)
      requires Valid()
      modifies this
      ensures Valid() && parts == old(parts) + CallersParts(ReceivedCallers(callers))
    {
      hide EncodeAll, FrameAll, Framable, NumberParts, CallerParts;
      Number("callers", |callers|);
      ghost var head, all := parts, ReceivedCallers(callers);
      Nothing(head, CallerListParts(all[..0]));
      for k := 0 to |callers|
        invariant Valid() && parts == head + CallerListParts(all[..k])
      {
        WriteCaller(callers[k]);
        CallersMore(head, all, k);
      }
      assert all[..|callers|] == all;
    }

    method WriteCaller(c: LinkCaller)
      requires Valid()
      modifies this
      ensures Valid() && parts == old(parts) + CallerParts(ReceivedCaller(c))
    {
      hide EncodeAll, FrameAll, Framable, FieldParts, NumberParts, OptionParts;
      ghost var w := parts;
      Number("caller_pid", c.pid);
      Field("caller_name", c.name);
      Field("caller_command", c.command);
      Optional("caller_exe", c.exe);
      Join4(w, NumberParts("caller_pid", c.pid), FieldParts("caller_name", c.name),
            FieldParts("caller_command", c.command), OptionParts("caller_exe", Received(c.exe)));
    }

    method Secrets(secrets: seq<LinkSecret>)
      requires Valid()
      modifies this
      ensures Valid() && parts == old(parts) + SecretsParts(ReceivedSecrets(secrets))
    {
      hide EncodeAll, FrameAll, Framable, NumberParts, SecretParts;
      Number("secrets", |secrets|);
      ghost var head, all := parts, ReceivedSecrets(secrets);
      Nothing(head, SecretListParts(all[..0]));
      for k := 0 to |secrets|
        invariant Valid() && parts == head + SecretListParts(all[..k])
      {
        WriteSecret(secrets[k]);
        SecretsMore(head, all, k);
      }
      assert all[..|secrets|] == all;
    }

    method WriteSecret(s: LinkSecret)
      requires Valid()
      modifies this
      ensures Valid() && parts == old(parts) + SecretParts(ReceivedSecret(s))
    {
      hide EncodeAll, FrameAll, Framable, FieldParts, NumberParts, OptionParts, StringsParts;
      ghost var w := parts;
      Field("secret_name", s.name);
      Field("secret_provider", s.provider);
      Field("secret_locator", s.locator);
      Optional("secret_description", s.description);
      ghost var mid := parts;
      Optional("secret_reason", s.reason);
      Strings("secret_requested_by", s.requestedBy);
      Optional("secret_declared_as", s.declaredAs);
      ghost var tail := OptionParts("secret_reason", Received(s.reason)) +
        (StringsParts("secret_requested_by", s.requestedBy) +
         OptionParts("secret_declared_as", Received(s.declaredAs)));
      Join3(mid, OptionParts("secret_reason", Received(s.reason)), StringsParts("secret_requested_by", s.requestedBy),
            OptionParts("secret_declared_as", Received(s.declaredAs)));
      Join5(w, FieldParts("secret_name", s.name), FieldParts("secret_provider", s.provider),
            FieldParts("secret_locator", s.locator), OptionParts("secret_description", Received(s.description)), tail);
    }

    method WriteAnchor(anchor: Option<LinkAnchor>)
      requires Valid()
      modifies this
      ensures Valid() && parts == old(parts) + AnchorParts(ReceivedAnchor(anchor))
    {
      hide EncodeAll, FrameAll, Framable, FieldParts, NumberParts, OptionParts;
      ghost var w := parts;
      match anchor {
        case Some(a) =>
          Part("anchor_some");
          Field("anchor_name", a.name);
          Number("anchor_pid", a.pid);
          Field("anchor_kind", match a.kind case Session => "session" case ForwardedSsh => "forwarded_ssh");
          Optional("anchor_command", a.command);
          Join5(w, ["anchor_some"], FieldParts("anchor_name", a.name), NumberParts("anchor_pid", a.pid),
                FieldParts("anchor_kind", KindText(a.kind)), OptionParts("anchor_command", Received(a.command)));
        case None =>
          Part("anchor_none");
      }
    }

    method WritePeer(peer: Option<LinkPeer>)
      requires Valid()
      modifies this
      ensures Valid() && parts == old(parts) + PeerParts(ReceivedPeer(peer))
    {
      hide EncodeAll, FrameAll, Framable, FieldParts, NumberParts, OptionParts;
      ghost var w := parts;
      match peer {
        case Some(p) =>
          Part("declared_by_some");
          Number("declared_by_pid", p.pid);
          Field("declared_by_name", p.name);
          Optional("declared_by_exe", p.exe);
          Join4(w, ["declared_by_some"], NumberParts("declared_by_pid", p.pid),
                FieldParts("declared_by_name", p.name), OptionParts("declared_by_exe", Received(p.exe)));
        case None =>
          Part("declared_by_none");
      }
    }

    method WriteSubject(subject: LinkSubject)
      requires Valid()
      modifies this
      ensures Valid() && parts == old(parts) + SubjectParts(ReceivedAsk(LinkAsk([], subject)).subject)
    {
      hide CallersParts, SecretsParts, AnchorParts, PeerParts, ReceivedCallers, ReceivedSecrets, ReceivedAnchor,
        ReceivedPeer, EncodeAll, FrameAll, Framable, FieldParts, BoolParts, OptionParts;
      ghost var w := parts;
      match subject {
        case LinkWrap(wrap, cwd, callers, truncated, secrets, remember) =>
          Part("wrap");
          Field("wrap", wrap);
          Field("cwd", cwd);
          Bool("callers_truncated", truncated);
          ghost var mid := parts;
          Callers(callers);
          Secrets(secrets);
          Bool("allow_remember", remember);
          ghost var c, s := CallersParts(ReceivedCallers(callers)), SecretsParts(ReceivedSecrets(secrets));
          Join3(mid, c, s, BoolParts("allow_remember", remember));
          Join5(w, ["wrap"], FieldParts("wrap", wrap), FieldParts("cwd", cwd),
                BoolParts("callers_truncated", truncated), c + (s + BoolParts("allow_remember", remember)));
        case LinkSsh(wrap, cwd, callers, truncated, keyId, fingerprint, reason, anchor) =>
          Part("ssh_sign");
          Field("wrap", wrap);
          Field("cwd", cwd);
          Bool("callers_truncated", truncated);
          ghost var mid := parts;
          Callers(callers);
          Field("key_id", keyId);
          Field("fingerprint", fingerprint);
          Optional("reason", reason);
          WriteAnchor(anchor);
          ghost var c, a := CallersParts(ReceivedCallers(callers)), AnchorParts(ReceivedAnchor(anchor));
          ghost var k, f := FieldParts("key_id", keyId), FieldParts("fingerprint", fingerprint);
          ghost var r := OptionParts("reason", Received(reason));
          Join5(mid, c, k, f, r, a);
          Join5(w, ["ssh_sign"], FieldParts("wrap", wrap), FieldParts("cwd", cwd),
                BoolParts("callers_truncated", truncated), c + (k + (f + (r + a))));
        case LinkAgent(scope, reference, guest, declared) =>
          Part("scoped_agent");
          Field("scope", scope);
          Field("reference", reference);
          Optional("guest_chain", guest);
          WritePeer(declared);
          Join5(w, ["scoped_agent"], FieldParts("scope", scope), FieldParts("reference", reference),
                OptionParts("guest_chain", Received(guest)), PeerParts(ReceivedPeer(declared)));
      }
    }
  }

  lemma {:induction false} Nothing(w: Parts, none: Parts)
    requires none == []
    ensures w + none == w
  {
  }

  lemma {:induction false} Join3(w: Parts, a: Parts, b: Parts, c: Parts)
    ensures w + a + b + c == w + (a + (b + c))
  {
  }

  lemma {:induction false} Join4(w: Parts, a: Parts, b: Parts, c: Parts, d: Parts)
    ensures w + a + b + c + d == w + (a + (b + (c + d)))
  {
    Join3(w + a, b, c, d);
    Assoc(w, a, b + (c + d));
  }

  lemma {:induction false} Join5(w: Parts, a: Parts, b: Parts, c: Parts, d: Parts, e: Parts)
    ensures w + a + b + c + d + e == w + (a + (b + (c + (d + e))))
  {
    Join4(w + a, b, c, d, e);
    Assoc(w, a, b + (c + (d + e)));
  }

  lemma {:induction false} CallersMore(w: Parts, cs: seq<Caller>, k: nat)
    requires k < |cs|
    ensures w + CallerListParts(cs[..k]) + CallerParts(cs[k]) == w + CallerListParts(cs[..k + 1])
  {
    hide CallerParts, CallerListParts;
    assert cs[..k + 1] == cs[..k] + [cs[k]];
    CallerListSnoc(cs[..k], cs[k]);
    Assoc(w, CallerListParts(cs[..k]), CallerParts(cs[k]));
  }

  lemma {:induction false} SecretsMore(w: Parts, ss: seq<SecretAsk>, k: nat)
    requires k < |ss|
    ensures w + SecretListParts(ss[..k]) + SecretParts(ss[k]) == w + SecretListParts(ss[..k + 1])
  {
    hide SecretParts, SecretListParts;
    assert ss[..k + 1] == ss[..k] + [ss[k]];
    SecretListSnoc(ss[..k], ss[k]);
    Assoc(w, SecretListParts(ss[..k]), SecretParts(ss[k]));
  }

  lemma {:induction false} CallerListSnoc(cs: seq<Caller>, c: Caller)
    ensures CallerListParts(cs + [c]) == CallerListParts(cs) + CallerParts(c)
  {
    hide CallerParts;
    if cs == [] {
      assert cs + [c] == [c] && [c][1..] == [];
    } else {
      assert (cs + [c])[1..] == cs[1..] + [c];
      CallerListSnoc(cs[1..], c);
    }
  }

  lemma {:induction false} SecretListSnoc(ss: seq<SecretAsk>, s: SecretAsk)
    ensures SecretListParts(ss + [s]) == SecretListParts(ss) + SecretParts(s)
  {
    hide SecretParts;
    if ss == [] {
      assert ss + [s] == [s] && [s][1..] == [];
    } else {
      assert (ss + [s])[1..] == ss[1..] + [s];
      SecretListSnoc(ss[1..], s);
    }
  }

  /** `canonical_link_bytes`: the host computes from what it sends the very bytes the device
      computes from what it receives. */
  method CanonicalLinkBytes(ask: LinkAsk) returns (r: Option<Bytes>)
    ensures var received := ReceivedAsk(ask);
            r == if Framable(EncodeAll(AskParts(received))) then Some(CanonicalBytes(received)) else None
  {
    hide SubjectParts, EncodeAll, FrameAll, Framable;
    var writer := new HostWriter();
    writer.Part("secreq-link-ask-v1");
    writer.Strings("command", ask.command);
    writer.WriteSubject(ask.subject);
    Join3([], [CONTRACT], StringsParts("command", ask.command), SubjectParts(ReceivedAsk(ask).subject));
    assert writer.parts == AskParts(ReceivedAsk(ask));
    r := if writer.panicked then None else Some(writer.bytes);
  }

  /** `canonical_parts` of a decision: what the host verifies is what the device signs. */
  method VerifiedBytes(payload: Payload) returns (r: Option<Bytes>)
    ensures r == if Framable(EncodeAll(PayloadFields(payload))) then Some(PayloadBytes(payload)) else None
  {
    hide EncodeAll, FrameAll, Framable;
    var writer := new HostWriter();
    writer.Part(payload.requestId);
    writer.Part(payload.askHashHex);
    writer.Part(payload.decision);
    writer.Part(payload.nonce);
    assert writer.parts == PayloadFields(payload);
    r := if writer.panicked then None else Some(writer.bytes);
  }

  /** The bytes a device computes for the ask it shows are those the host computed for the ask it sent
      if and only if it shows what was sent, absences alike. */
  lemma {:induction false} DeviceMatchesHostExactlyWhen(sent: LinkAsk, shown: Ask)
    requires Framable(EncodeAll(AskParts(ReceivedAsk(sent)))) && Framable(EncodeAll(AskParts(shown)))
    ensures CanonicalBytes(shown) == CanonicalBytes(ReceivedAsk(sent)) <==>
            Normalise(shown) == Normalise(ReceivedAsk(sent))
  {
    CanonicalIsInjective(shown, ReceivedAsk(sent));
  }
}
