/** The canonical ask encoding of packages/link-ui/src/canonical.ts and the signed payload of
    crypto.ts: the parts, the framing, and a decoder that shows nothing is merged. */
module Canonical {
  import opened Common
  import Utf8

  // ---------------------------------------------------------------------
  // The asks
  // ---------------------------------------------------------------------

  /** A TypeScript `T | null | undefined`. */
  datatype Maybe<+T> = Undefined | Null | Just(value: T)

  datatype Caller = Caller(pid: nat, name: string, command: string, exe: Maybe<string>)

  datatype SecretAsk = SecretAsk(
    name: string, provider: string, locator: string, description: Maybe<string>, reason: Maybe<string>,
    requestedBy: Maybe<seq<string>>, declaredAs: Maybe<string>)

  datatype Anchor = Anchor(name: string, pid: nat, kind: string, command: Maybe<string>)

  datatype Peer = Peer(pid: nat, name: string, exe: Maybe<string>)

  datatype Subject =
    | Wrap(wrap: string, cwd: string, truncated: Maybe<bool>, callers: seq<Caller>, secrets: seq<SecretAsk>,
           allowRemember: bool)
    | SshSign(wrap: string, cwd: string, truncated: Maybe<bool>, callers: seq<Caller>, keyId: string,
              fingerprint: string, reason: Maybe<string>, anchor: Maybe<Anchor>)
    | ScopedAgent(scope: string, reference: string, guestChain: Maybe<string>, declaredBy: Maybe<Peer>)

  datatype Ask = Ask(command: seq<string>, subject: Subject)

  // ---------------------------------------------------------------------
  // Normal form: the differences the contract deliberately ignores
  // ---------------------------------------------------------------------

  /** `null` and `undefined` are one absence. */
  function Absent<T>(m: Maybe<T>): Maybe<T>
  {
    if m.Just? then m else Null
  }

  /** An absent value stands for its default. */
  function OrElse<T>(m: Maybe<T>, default: T): T
  {
    if m.Just? then m.value else default
  }

  function NormalCaller(c: Caller): Caller
  {
    c.(exe := Absent(c.exe))
  }

  function NormalSecret(s: SecretAsk): SecretAsk
  {
    SecretAsk(s.name, s.provider, s.locator, Absent(s.description), Absent(s.reason),
              Just(OrElse(s.requestedBy, [])), Absent(s.declaredAs))
  }

  function NormalAnchor(a: Maybe<Anchor>): Maybe<Anchor>
  {
    if a.Just? then Just(a.value.(command := Absent(a.value.command))) else Null
  }

  function NormalPeer(p: Maybe<Peer>): Maybe<Peer>
  {
    if p.Just? then Just(p.value.(exe := Absent(p.value.exe))) else Null
  }

  function NormalCallers(cs: seq<Caller>): (r: seq<Caller>)
  {
    if cs == [] then [] else [NormalCaller(cs[0])] + NormalCallers(cs[1..])
  }

  function NormalSecrets(ss: seq<SecretAsk>): (r: seq<SecretAsk>)
  {
    if ss == [] then [] else [NormalSecret(ss[0])] + NormalSecrets(ss[1..])
  }

  function Normalise(ask: Ask): Ask
  {
    Ask(ask.command,
        match ask.subject
        case Wrap(wrap, cwd, t, callers, secrets, remember) =>
          Wrap(wrap, cwd, Just(OrElse(t, false)), NormalCallers(callers), NormalSecrets(secrets), remember)
        case SshSign(wrap, cwd, t, callers, keyId, fingerprint, reason, anchor) =>
          SshSign(wrap, cwd, Just(OrElse(t, false)), NormalCallers(callers), keyId, fingerprint, Absent(reason),
                  NormalAnchor(anchor))
        case ScopedAgent(scope, reference, guest, declared) =>
          ScopedAgent(scope, reference, Absent(guest), NormalPeer(declared)))
  }

  // ---------------------------------------------------------------------
  // Parts
  // ---------------------------------------------------------------------

  type Parts = seq<string>

  const CONTRACT := "secreq-link-ask-v1"

  function FieldParts(name: string, value: string): Parts
  {
    [name, value]
  }

  function NumberParts(name: string, n: nat): Parts
  {
    FieldParts(name, Utf8.Decimal(n))
  }

  function BoolText(b: bool): string
  {
    if b then "true" else "false"
  }

  function BoolParts(name: string, b: bool): Parts
  {
    FieldParts(name, BoolText(b))
  }

  function OptionParts(name: string, v: Maybe<string>): Parts
  {
    if v.Just? then [name, "some", v.value] else [name, "none"]
  }

  function StringsParts(name: string, values: seq<string>): Parts
  {
    NumberParts(name, |values|) + values
  }

  function CallerParts(c: Caller): Parts
  {
    NumberParts("caller_pid", c.pid) + (FieldParts("caller_name", c.name) +
      (FieldParts("caller_command", c.command) + OptionParts("caller_exe", c.exe)))
  }

  function CallerListParts(cs: seq<Caller>): Parts
  {
    if cs == [] then [] else CallerParts(cs[0]) + CallerListParts(cs[1..])
  }

  function CallersParts(cs: seq<Caller>): Parts
  {
    NumberParts("callers", |cs|) + CallerListParts(cs)
  }

  function SecretParts(s: SecretAsk): Parts
  {
    FieldParts("secret_name", s.name) + (FieldParts("secret_provider", s.provider) +
      (FieldParts("secret_locator", s.locator) + (OptionParts("secret_description", s.description) +
      (OptionParts("secret_reason", s.reason) +
      (StringsParts("secret_requested_by", OrElse(s.requestedBy, [])) +
      OptionParts("secret_declared_as", s.declaredAs))))))
  }

  function SecretListParts(ss: seq<SecretAsk>): Parts
  {
    if ss == [] then [] else SecretParts(ss[0]) + SecretListParts(ss[1..])
  }

  function SecretsParts(ss: seq<SecretAsk>): Parts
  {
    NumberParts("secrets", |ss|) + SecretListParts(ss)
  }

  function AnchorParts(a: Maybe<Anchor>): Parts
  {
    if !a.Just? then ["anchor_none"] else ["anchor_some"] + AnchorFields(a.value)
  }

  function AnchorFields(a: Anchor): Parts
  {
    FieldParts("anchor_name", a.name) + (NumberParts("anchor_pid", a.pid) +
      (FieldParts("anchor_kind", a.kind) + OptionParts("anchor_command", a.command)))
  }

  function PeerParts(p: Maybe<Peer>): Parts
  {
    if !p.Just? then ["declared_by_none"] else ["declared_by_some"] + PeerFields(p.value)
  }

  function PeerFields(p: Peer): Parts
  {
    NumberParts("declared_by_pid", p.pid) + (FieldParts("declared_by_name", p.name) +
      OptionParts("declared_by_exe", p.exe))
  }

  function SubjectParts(s: Subject): Parts
  {
    match s
    case Wrap(wrap, cwd, t, callers, secrets, remember) =>
      ["wrap"] + (FieldParts("wrap", wrap) + (FieldParts("cwd", cwd) +
        (BoolParts("callers_truncated", OrElse(t, false)) + (CallersParts(callers) +
        (SecretsParts(secrets) + BoolParts("allow_remember", remember))))))
    case SshSign(wrap, cwd, t, callers, keyId, fingerprint, reason, anchor) =>
      ["ssh_sign"] + (FieldParts("wrap", wrap) + (FieldParts("cwd", cwd) +
        (BoolParts("callers_truncated", OrElse(t, false)) + (CallersParts(callers) +
        (FieldParts("key_id", keyId) + (FieldParts("fingerprint", fingerprint) +
        (OptionParts("reason", reason) + AnchorParts(anchor))))))))
    case ScopedAgent(scope, reference, guest, declared) =>
      ["scoped_agent"] + (FieldParts("scope", scope) + (FieldParts("reference", reference) +
        (OptionParts("guest_chain", guest) + PeerParts(declared))))
  }

  function AskParts(ask: Ask): Parts
  {
    [CONTRACT] + (StringsParts("command", ask.command) + SubjectParts(ask.subject))
  }

  // ---------------------------------------------------------------------
  // Framing
  // ---------------------------------------------------------------------

  /** The four bytes `setUint32` stores: the number modulo 2^32, big-endian. */
  function U32(n: nat): (b: Bytes)
    ensures |b| == 4
  {
    var m := n % 0x1_0000_0000;
    [m / 0x100_0000, m / 0x1_0000 % 0x100, m / 0x100 % 0x100, m % 0x100]
  }

  function ReadU32(b: Bytes): (n: nat)
    requires |b| >= 4
  {
    var b0: int, b1: int, b2: int, b3: int := b[0], b[1], b[2], b[3];
    ((b0 * 0x100 + b1) * 0x100 + b2) * 0x100 + b3
  }

  function Frame(part: Bytes): Bytes
  {
    U32(|part|) + part
  }

  function FrameAll(parts: seq<Bytes>): Bytes
  {
    if parts == [] then [] else Frame(parts[0]) + FrameAll(parts[1..])
  }

  function EncodeAll(parts: Parts): seq<Bytes>
  {
    if parts == [] then [] else [Utf8.Encode(parts[0])] + EncodeAll(parts[1..])
  }

  function CanonicalBytes(ask: Ask): Bytes
  {
    FrameAll(EncodeAll(AskParts(ask)))
  }

  /** Every part fits the four-byte length in front of it. */
  ghost predicate Framable(parts: seq<Bytes>)
  {
    forall k | 0 <= k < |parts| :: |parts[k]| < 0x1_0000_0000
  }

  function Unframe(b: Bytes): Option<seq<Bytes>>
  {
    if b == [] then Some([])
    else if |b| < 4 then None
    else
      var n := ReadU32(b);
      if |b| < 4 + n then None
      else
        match Unframe(b[4 + n..])
        case None => None
        case Some(rest) => Some([b[4..4 + n]] + rest)
  }

  function DecodeAll(parts: seq<Bytes>): Option<Parts>
  {
    if parts == [] then Some([])
    else
      match Utf8.Decode(parts[0])
      case None => None
      case Some(s) =>
        match DecodeAll(parts[1..]) case None => None case Some(rest) => Some([s] + rest)
  }

  // ---------------------------------------------------------------------
  // The decoder
  // ---------------------------------------------------------------------

  datatype Read<+T> = Got(value: T, rest: Parts) | Bad

  function ReadLabel(name: string, ps: Parts): Read<()>
  {
    if ps != [] && ps[0] == name then Got((), ps[1..]) else Bad
  }

  function ReadField(name: string, ps: Parts): Read<string>
  {
    if |ps| >= 2 && ps[0] == name then Got(ps[1], ps[2..]) else Bad
  }

  function ReadNumber(name: string, ps: Parts): Read<nat>
  {
    match ReadField(name, ps)
    case Bad => Bad
    case Got(text, rest) =>
      match Utf8.ReadDecimal(text) case None => Bad case Some(n) => Got(n, rest)
  }

  function ReadBool(name: string, ps: Parts): Read<bool>
  {
    match ReadField(name, ps)
    case Bad => Bad
    case Got(text, rest) => if text == "true" then Got(true, rest) else Got(false, rest)
  }

  function ReadOption(name: string, ps: Parts): Read<Maybe<string>>
  {
    match ReadField(name, ps)
    case Bad => Bad
    case Got(flag, rest) =>
      if flag == "some" then (if rest == [] then Bad else Got(Just(rest[0]), rest[1..]))
      else Got(Null, rest)
  }

  function ReadStrings(name: string, ps: Parts): Read<seq<string>>
  {
    match ReadNumber(name, ps)
    case Bad => Bad
    case Got(n, rest) => if n > |rest| then Bad else Got(rest[..n], rest[n..])
  }

  function ReadCaller(ps: Parts): Read<Caller>
  {
    match ReadNumber("caller_pid", ps)
    case Bad => Bad
    case Got(pid, r1) =>
      match ReadField("caller_name", r1)
      case Bad => Bad
      case Got(name, r2) =>
        match ReadField("caller_command", r2)
        case Bad => Bad
        case Got(command, r3) =>
          match ReadOption("caller_exe", r3)
          case Bad => Bad
          case Got(exe, r4) => Got(Caller(pid, name, command, exe), r4)
  }

  function ReadCallerList(n: nat, ps: Parts): Read<seq<Caller>>
  {
    if n == 0 then Got([], ps)
    else
      match ReadCaller(ps)
      case Bad => Bad
      case Got(c, r1) =>
        match ReadCallerList(n - 1, r1) case Bad => Bad case Got(cs, r2) => Got([c] + cs, r2)
  }

  function ReadCallers(ps: Parts): Read<seq<Caller>>
  {
    match ReadNumber("callers", ps) case Bad => Bad case Got(n, rest) => ReadCallerList(n, rest)
  }

  function ReadSecret(ps: Parts): Read<SecretAsk>
  {
    match ReadField("secret_name", ps)
    case Bad => Bad
    case Got(name, r1) =>
      match ReadField("secret_provider", r1)
      case Bad => Bad
      case Got(provider, r2) =>
        match ReadField("secret_locator", r2)
        case Bad => Bad
        case Got(locator, r3) => ReadSecretTail(name, provider, locator, r3)
  }

  function ReadSecretTail(name: string, provider: string, locator: string, ps: Parts): Read<SecretAsk>
  {
    match ReadOption("secret_description", ps)
    case Bad => Bad
    case Got(description, r1) =>
      match ReadOption("secret_reason", r1)
      case Bad => Bad
      case Got(reason, r2) =>
        match ReadStrings("secret_requested_by", r2)
        case Bad => Bad
        case Got(requested, r3) =>
          match ReadOption("secret_declared_as", r3)
          case Bad => Bad
          case Got(declared, r4) =>
            Got(SecretAsk(name, provider, locator, description, reason, Just(requested), declared), r4)
  }

  function ReadSecretList(n: nat, ps: Parts): Read<seq<SecretAsk>>
  {
    if n == 0 then Got([], ps)
    else
      match ReadSecret(ps)
      case Bad => Bad
      case Got(s, r1) =>
        match ReadSecretList(n - 1, r1) case Bad => Bad case Got(ss, r2) => Got([s] + ss, r2)
  }

  function ReadSecrets(ps: Parts): Read<seq<SecretAsk>>
  {
    match ReadNumber("secrets", ps) case Bad => Bad case Got(n, rest) => ReadSecretList(n, rest)
  }

  function ReadAnchor(ps: Parts): Read<Maybe<Anchor>>
  {
    if ps != [] && ps[0] == "anchor_none" then Got(Null, ps[1..])
    else
      match ReadLabel("anchor_some", ps)
      case Bad => Bad
      case Got(_, r0) =>
        match ReadField("anchor_name", r0)
        case Bad => Bad
        case Got(name, r1) =>
          match ReadNumber("anchor_pid", r1)
          case Bad => Bad
          case Got(pid, r2) =>
            match ReadField("anchor_kind", r2)
            case Bad => Bad
            case Got(kind, r3) =>
              match ReadOption("anchor_command", r3)
              case Bad => Bad
              case Got(command, r4) => Got(Just(Anchor(name, pid, kind, command)), r4)
  }

  function ReadPeer(ps: Parts): Read<Maybe<Peer>>
  {
    if ps != [] && ps[0] == "declared_by_none" then Got(Null, ps[1..])
    else
      match ReadLabel("declared_by_some", ps)
      case Bad => Bad
      case Got(_, r0) =>
        match ReadNumber("declared_by_pid", r0)
        case Bad => Bad
        case Got(pid, r1) =>
          match ReadField("declared_by_name", r1)
          case Bad => Bad
          case Got(name, r2) =>
            match ReadOption("declared_by_exe", r2)
            case Bad => Bad
            case Got(exe, r3) => Got(Just(Peer(pid, name, exe)), r3)
  }

  /** The four fields a wrap and an ssh ask have in common. */
  datatype Common4 = Common4(wrap: string, cwd: string, truncated: bool, callers: seq<Caller>)

  function ReadCommon(ps: Parts): Read<Common4>
  {
    match ReadField("wrap", ps)
    case Bad => Bad
    case Got(wrap, r1) =>
      match ReadField("cwd", r1)
      case Bad => Bad
      case Got(cwd, r2) =>
        match ReadBool("callers_truncated", r2)
        case Bad => Bad
        case Got(truncated, r3) =>
          match ReadCallers(r3)
          case Bad => Bad
          case Got(callers, r4) => Got(Common4(wrap, cwd, truncated, callers), r4)
  }

  function ReadWrap(ps: Parts): Read<Subject>
  {
    match ReadCommon(ps)
    case Bad => Bad
    case Got(c, r1) =>
      match ReadSecrets(r1)
      case Bad => Bad
      case Got(secrets, r2) =>
        match ReadBool("allow_remember", r2)
        case Bad => Bad
        case Got(remember, r3) => Got(Wrap(c.wrap, c.cwd, Just(c.truncated), c.callers, secrets, remember), r3)
  }

  function ReadSshSign(ps: Parts): Read<Subject>
  {
    match ReadCommon(ps)
    case Bad => Bad
    case Got(c, r1) =>
      match ReadField("key_id", r1)
      case Bad => Bad
      case Got(keyId, r2) =>
        match ReadField("fingerprint", r2)
        case Bad => Bad
        case Got(fingerprint, r3) =>
          match ReadOption("reason", r3)
          case Bad => Bad
          case Got(reason, r4) =>
            match ReadAnchor(r4)
            case Bad => Bad
            case Got(anchor, r5) =>
              Got(SshSign(c.wrap, c.cwd, Just(c.truncated), c.callers, keyId, fingerprint, reason, anchor), r5)
  }

  function ReadScopedAgent(ps: Parts): Read<Subject>
  {
    match ReadField("scope", ps)
    case Bad => Bad
    case Got(scope, r1) =>
      match ReadField("reference", r1)
      case Bad => Bad
      case Got(reference, r2) =>
        match ReadOption("guest_chain", r2)
        case Bad => Bad
        case Got(guest, r3) =>
          match ReadPeer(r3)
          case Bad => Bad
          case Got(declared, r4) => Got(ScopedAgent(scope, reference, guest, declared), r4)
  }

  function ReadSubject(ps: Parts): Read<Subject>
  {
    if ps == [] then Bad
    else if ps[0] == "wrap" then ReadWrap(ps[1..])
    else if ps[0] == "ssh_sign" then ReadSshSign(ps[1..])
    else if ps[0] == "scoped_agent" then ReadScopedAgent(ps[1..])
    else Bad
  }

  function ReadAsk(ps: Parts): Option<Ask>
  {
    match ReadLabel(CONTRACT, ps)
    case Bad => None
    case Got(_, r0) =>
      match ReadStrings("command", r0)
      case Bad => None
      case Got(command, r1) =>
        match ReadSubject(r1)
        case Bad => None
        case Got(subject, r2) => if r2 == [] then Some(Ask(command, subject)) else None
  }

  /** The ask some canonical bytes stand for. */
  function DecodeAsk(b: Bytes): Option<Ask>
  {
    match Unframe(b)
    case None => None
    case Some(parts) => match DecodeAll(parts) case None => None case Some(ps) => ReadAsk(ps)
  }

  // ---------------------------------------------------------------------
  // Reading back what was written
  // ---------------------------------------------------------------------

  lemma {:induction false} FieldReads(name: string, v: string, k: Parts)
    ensures ReadField(name, FieldParts(name, v) + k) == Got(v, k)
  {
    assert (FieldParts(name, v) + k)[2..] == k;
  }

  lemma {:induction false} NumberReads(name: string, n: nat, k: Parts)
    ensures ReadNumber(name, NumberParts(name, n) + k) == Got(n, k)
  {
    FieldReads(name, Utf8.Decimal(n), k);
    Utf8.ReadDecimalDecimal(n);
  }

  lemma {:induction false} BoolReads(name: string, b: bool, k: Parts)
    ensures ReadBool(name, BoolParts(name, b) + k) == Got(b, k)
  {
    FieldReads(name, BoolText(b), k);
    assert "true"[0] != "false"[0];
  }

  lemma {:induction false} OptionReads(name: string, v: Maybe<string>, k: Parts)
    ensures ReadOption(name, OptionParts(name, v) + k) == Got(Absent(v), k)
  {
    assert "some"[0] != "none"[0];
    if v.Just? {
      assert OptionParts(name, v) + k == FieldParts(name, "some") + ([v.value] + k);
      FieldReads(name, "some", [v.value] + k);
      assert ([v.value] + k)[1..] == k;
    } else {
      FieldReads(name, "none", k);
    }
  }

  lemma {:induction false} StringsRead(name: string, vs: seq<string>, k: Parts)
    ensures ReadStrings(name, StringsParts(name, vs) + k) == Got(vs, k)
  {
    hide ReadNumber, NumberParts;
    NumberReads(name, |vs|, vs + k);
    Assoc(NumberParts(name, |vs|), vs, k);
    assert (vs + k)[..|vs|] == vs && (vs + k)[|vs|..] == k;
  }

  lemma {:induction false} Assoc(a: Parts, b: Parts, k: Parts)
    ensures (a + b) + k == a + (b + k)
  {
  }

  lemma {:induction false} CallerReads(c: Caller, k: Parts)
    ensures ReadCaller(CallerParts(c) + k) == Got(NormalCaller(c), k)
  {
    hide ReadNumber, ReadField, ReadOption, NumberParts, FieldParts, OptionParts, Absent;
    var p1, p2 := NumberParts("caller_pid", c.pid), FieldParts("caller_name", c.name);
    var p3, p4 := FieldParts("caller_command", c.command), OptionParts("caller_exe", c.exe);
    Assoc(p1, p2 + (p3 + p4), k);
    Assoc(p2, p3 + p4, k);
    Assoc(p3, p4, k);
    NumberReads("caller_pid", c.pid, p2 + (p3 + (p4 + k)));
    FieldReads("caller_name", c.name, p3 + (p4 + k));
    FieldReads("caller_command", c.command, p4 + k);
    OptionReads("caller_exe", c.exe, k);
  }

  lemma {:induction false} CallerListReads(cs: seq<Caller>, k: Parts)
    ensures ReadCallerList(|cs|, CallerListParts(cs) + k) == Got(NormalCallers(cs), k)
  {
    hide ReadCaller, CallerParts, NormalCaller;
    if cs == [] {
      assert [] + k == k;
    } else {
      var rest := CallerListParts(cs[1..]);
      Assoc(CallerParts(cs[0]), rest, k);
      CallerReads(cs[0], rest + k);
      CallerListReads(cs[1..], k);
    }
  }

  lemma {:induction false} CallersRead(cs: seq<Caller>, k: Parts)
    ensures ReadCallers(CallersParts(cs) + k) == Got(NormalCallers(cs), k)
  {
    hide ReadNumber, NumberParts, ReadCallerList, CallerListParts, NormalCallers;
    Assoc(NumberParts("callers", |cs|), CallerListParts(cs), k);
    NumberReads("callers", |cs|, CallerListParts(cs) + k);
    CallerListReads(cs, k);
  }

  lemma {:induction false} SecretTailReads(s: SecretAsk, k: Parts)
    ensures ReadSecretTail(s.name, s.provider, s.locator,
                           OptionParts("secret_description", s.description) + (OptionParts("secret_reason", s.reason) +
                           (StringsParts("secret_requested_by", OrElse(s.requestedBy, [])) +
                           (OptionParts("secret_declared_as", s.declaredAs) + k)))) == Got(NormalSecret(s), k)
  {
    hide ReadOption, ReadStrings, OptionParts, StringsParts, Absent, OrElse;
    var p4 := OptionParts("secret_declared_as", s.declaredAs);
    var p3 := StringsParts("secret_requested_by", OrElse(s.requestedBy, []));
    var p2 := OptionParts("secret_reason", s.reason);
    OptionReads("secret_description", s.description, p2 + (p3 + (p4 + k)));
    OptionReads("secret_reason", s.reason, p3 + (p4 + k));
    StringsRead("secret_requested_by", OrElse(s.requestedBy, []), p4 + k);
    OptionReads("secret_declared_as", s.declaredAs, k);
  }

  lemma {:induction false} SecretReads(s: SecretAsk, k: Parts)
    ensures ReadSecret(SecretParts(s) + k) == Got(NormalSecret(s), k)
  {
    hide ReadField, ReadSecretTail, FieldParts, OptionParts, StringsParts, NormalSecret, OrElse;
    var p1, p2 := FieldParts("secret_name", s.name), FieldParts("secret_provider", s.provider);
    var p3, p4 := FieldParts("secret_locator", s.locator), OptionParts("secret_description", s.description);
    var p5 := OptionParts("secret_reason", s.reason);
    var p6 := StringsParts("secret_requested_by", OrElse(s.requestedBy, []));
    var p7 := OptionParts("secret_declared_as", s.declaredAs);
    Assoc(p1, p2 + (p3 + (p4 + (p5 + (p6 + p7)))), k);
    Assoc(p2, p3 + (p4 + (p5 + (p6 + p7))), k);
    Assoc(p3, p4 + (p5 + (p6 + p7)), k);
    Assoc(p4, p5 + (p6 + p7), k);
    Assoc(p5, p6 + p7, k);
    Assoc(p6, p7, k);
    var k3 := p4 + (p5 + (p6 + (p7 + k)));
    FieldReads("secret_name", s.name, p2 + (p3 + k3));
    FieldReads("secret_provider", s.provider, p3 + k3);
    FieldReads("secret_locator", s.locator, k3);
    SecretTailReads(s, k);
  }

  lemma {:induction false} SecretListReads(ss: seq<SecretAsk>, k: Parts)
    ensures ReadSecretList(|ss|, SecretListParts(ss) + k) == Got(NormalSecrets(ss), k)
  {
    hide ReadSecret, SecretParts, NormalSecret;
    if ss == [] {
      assert [] + k == k;
    } else {
      var rest := SecretListParts(ss[1..]);
      Assoc(SecretParts(ss[0]), rest, k);
      SecretReads(ss[0], rest + k);
      SecretListReads(ss[1..], k);
    }
  }

  lemma {:induction false} SecretsRead(ss: seq<SecretAsk>, k: Parts)
    ensures ReadSecrets(SecretsParts(ss) + k) == Got(NormalSecrets(ss), k)
  {
    hide ReadNumber, NumberParts, ReadSecretList, SecretListParts, NormalSecrets;
    Assoc(NumberParts("secrets", |ss|), SecretListParts(ss), k);
    NumberReads("secrets", |ss|, SecretListParts(ss) + k);
    SecretListReads(ss, k);
  }

  lemma {:induction false} AnchorReads(a: Maybe<Anchor>, k: Parts)
    ensures ReadAnchor(AnchorParts(a) + k) == Got(NormalAnchor(a), k)
  {
    hide ReadNumber, ReadField, ReadOption, NumberParts, FieldParts, OptionParts, Absent;
    if a.Just? {
      var p1, p2 := FieldParts("anchor_name", a.value.name), NumberParts("anchor_pid", a.value.pid);
      var p3, p4 := FieldParts("anchor_kind", a.value.kind), OptionParts("anchor_command", a.value.command);
      Assoc(["anchor_some"], p1 + (p2 + (p3 + p4)), k);
      Assoc(p1, p2 + (p3 + p4), k);
      Assoc(p2, p3 + p4, k);
      Assoc(p3, p4, k);
      var k0 := p1 + (p2 + (p3 + (p4 + k)));
      assert (["anchor_some"] + k0)[1..] == k0;
      assert "anchor_some"[7] != "anchor_none"[7];
      FieldReads("anchor_name", a.value.name, p2 + (p3 + (p4 + k)));
      NumberReads("anchor_pid", a.value.pid, p3 + (p4 + k));
      FieldReads("anchor_kind", a.value.kind, p4 + k);
      OptionReads("anchor_command", a.value.command, k);
    } else {
      assert (["anchor_none"] + k)[1..] == k;
    }
  }

  lemma {:induction false} PeerReads(p: Maybe<Peer>, k: Parts)
    ensures ReadPeer(PeerParts(p) + k) == Got(NormalPeer(p), k)
  {
    hide ReadNumber, ReadField, ReadOption, NumberParts, FieldParts, OptionParts, Absent;
    if p.Just? {
      var p1, p2 := NumberParts("declared_by_pid", p.value.pid), FieldParts("declared_by_name", p.value.name);
      var p3 := OptionParts("declared_by_exe", p.value.exe);
      Assoc(["declared_by_some"], p1 + (p2 + p3), k);
      Assoc(p1, p2 + p3, k);
      Assoc(p2, p3, k);
      var k0 := p1 + (p2 + (p3 + k));
      assert (["declared_by_some"] + k0)[1..] == k0;
      assert "declared_by_some"[12] != "declared_by_none"[12];
      NumberReads("declared_by_pid", p.value.pid, p2 + (p3 + k));
      FieldReads("declared_by_name", p.value.name, p3 + k);
      OptionReads("declared_by_exe", p.value.exe, k);
    } else {
      assert (["declared_by_none"] + k)[1..] == k;
    }
  }

  lemma {:induction false} CommonReads(wrap: string, cwd: string, t: bool, callers: seq<Caller>, k: Parts)
    ensures ReadCommon(FieldParts("wrap", wrap) + (FieldParts("cwd", cwd) + (BoolParts("callers_truncated", t) +
                       (CallersParts(callers) + k)))) == Got(Common4(wrap, cwd, t, NormalCallers(callers)), k)
  {
    hide ReadField, ReadBool, ReadCallers, FieldParts, BoolParts, CallersParts, NormalCallers;
    var p2, p3, p4 := FieldParts("cwd", cwd), BoolParts("callers_truncated", t), CallersParts(callers);
    FieldReads("wrap", wrap, p2 + (p3 + (p4 + k)));
    FieldReads("cwd", cwd, p3 + (p4 + k));
    BoolReads("callers_truncated", t, p4 + k);
    CallersRead(callers, k);
  }

  lemma {:induction false} WrapReads(s: Subject)
    requires s.Wrap?
    ensures ReadSubject(SubjectParts(s)) == Got(Normalise(Ask([], s)).subject, [])
  {
    hide ReadCommon, ReadSecrets, ReadBool, ReadSshSign, ReadScopedAgent, FieldParts, BoolParts, CallersParts,
      SecretsParts, NormalCallers, NormalSecrets;
    var p := BoolParts("allow_remember", s.allowRemember);
    assert p + [] == p;
    assert SubjectParts(s)[1..] == FieldParts("wrap", s.wrap) + (FieldParts("cwd", s.cwd) +
      (BoolParts("callers_truncated", OrElse(s.truncated, false)) + (CallersParts(s.callers) +
      (SecretsParts(s.secrets) + p))));
    CommonReads(s.wrap, s.cwd, OrElse(s.truncated, false), s.callers, SecretsParts(s.secrets) + p);
    SecretsRead(s.secrets, p);
    BoolReads("allow_remember", s.allowRemember, []);
  }

  lemma {:induction false} SshSignReads(s: Subject)
    requires s.SshSign?
    ensures ReadSubject(SubjectParts(s)) == Got(Normalise(Ask([], s)).subject, [])
  {
    hide ReadCommon, ReadField, ReadOption, ReadAnchor, ReadWrap, ReadScopedAgent, FieldParts, BoolParts,
      CallersParts, OptionParts, AnchorParts, NormalCallers, NormalAnchor;
    assert "ssh_sign"[0] != "wrap"[0];
    var p5, p6 := FieldParts("key_id", s.keyId), FieldParts("fingerprint", s.fingerprint);
    var p7, p8 := OptionParts("reason", s.reason), AnchorParts(s.anchor);
    assert p8 + [] == p8;
    assert SubjectParts(s)[1..] == FieldParts("wrap", s.wrap) + (FieldParts("cwd", s.cwd) +
      (BoolParts("callers_truncated", OrElse(s.truncated, false)) + (CallersParts(s.callers) +
      (p5 + (p6 + (p7 + p8))))));
    CommonReads(s.wrap, s.cwd, OrElse(s.truncated, false), s.callers, p5 + (p6 + (p7 + p8)));
    FieldReads("key_id", s.keyId, p6 + (p7 + p8));
    FieldReads("fingerprint", s.fingerprint, p7 + p8);
    OptionReads("reason", s.reason, p8);
    AnchorReads(s.anchor, []);
  }

  lemma {:induction false} ScopedAgentReads(s: Subject)
    requires s.ScopedAgent?
    ensures ReadSubject(SubjectParts(s)) == Got(Normalise(Ask([], s)).subject, [])
  {
    hide ReadField, ReadOption, ReadPeer, ReadWrap, ReadSshSign, FieldParts, OptionParts, PeerParts, NormalPeer;
    assert "scoped_agent"[0] != "wrap"[0] && "scoped_agent"[1] != "ssh_sign"[1];
    var p2, p3 := FieldParts("reference", s.reference), OptionParts("guest_chain", s.guestChain);
    var p4 := PeerParts(s.declaredBy);
    assert p4 + [] == p4;
    assert SubjectParts(s)[1..] == FieldParts("scope", s.scope) + (p2 + (p3 + p4));
    FieldReads("scope", s.scope, p2 + (p3 + p4));
    FieldReads("reference", s.reference, p3 + p4);
    OptionReads("guest_chain", s.guestChain, p4);
    PeerReads(s.declaredBy, []);
  }

  /** The parts of an ask read back as its normal form. */
  lemma {:induction false} AskReads(ask: Ask)
    ensures ReadAsk(AskParts(ask)) == Some(Normalise(ask))
  {
    hide ReadStrings, StringsParts, ReadSubject, SubjectParts;
    if ask.subject.Wrap? {
      WrapReads(ask.subject);
    } else if ask.subject.SshSign? {
      SshSignReads(ask.subject);
    } else {
      ScopedAgentReads(ask.subject);
    }
    var rest := StringsParts("command", ask.command) + SubjectParts(ask.subject);
    assert AskParts(ask)[1..] == rest;
    StringsRead("command", ask.command, SubjectParts(ask.subject));
  }

  lemma {:induction false} U32Reads(n: nat, rest: Bytes)
    requires n < 0x1_0000_0000
    ensures ReadU32(U32(n) + rest) == n
  {
    var b := U32(n) + rest;
    assert b[0] == n / 0x100_0000 && b[1] == n / 0x1_0000 % 0x100;
    assert b[2] == n / 0x100 % 0x100 && b[3] == n % 0x100;
    BaseBytes(n);
  }

  lemma {:induction false} BaseBytes(n: nat)
    requires n < 0x1_0000_0000
    ensures ((n / 0x100_0000 * 0x100 + n / 0x1_0000 % 0x100) * 0x100 + n / 0x100 % 0x100) * 0x100 + n % 0x100 == n
  {
    assert n / 0x1_0000 == n / 0x100_0000 * 0x100 + n / 0x1_0000 % 0x100;
    assert n / 0x100 == n / 0x1_0000 * 0x100 + n / 0x100 % 0x100;
  }

  lemma {:induction false} UnframeFrameAll(parts: seq<Bytes>)
    requires Framable(parts)
    ensures Unframe(FrameAll(parts)) == Some(parts)
  {
    if parts != [] {
      hide U32, ReadU32;
      var p, rest := parts[0], FrameAll(parts[1..]);
      var b := FrameAll(parts);
      assert b == U32(|p|) + (p + rest);
      U32Reads(|p|, p + rest);
      assert b[4..4 + |p|] == p && b[4 + |p|..] == rest;
      UnframeFrameAll(parts[1..]);
      assert [p] + parts[1..] == parts;
    }
  }

  lemma {:induction false} DecodeAllEncodeAll(ps: Parts)
    ensures DecodeAll(EncodeAll(ps)) == Some(ps)
  {
    if ps != [] {
      Utf8.DecodeEncode(ps[0]);
      DecodeAllEncodeAll(ps[1..]);
      assert [ps[0]] + ps[1..] == ps;
    }
  }

  /** The decoder undoes the encoding, up to the normal form. */
  lemma {:induction false} DecodesToNormalForm(ask: Ask)
    requires Framable(EncodeAll(AskParts(ask)))
    ensures DecodeAsk(CanonicalBytes(ask)) == Some(Normalise(ask))
  {
    hide ReadAsk, AskParts, EncodeAll, DecodeAll, FrameAll, Unframe, Normalise;
    UnframeFrameAll(EncodeAll(AskParts(ask)));
    DecodeAllEncodeAll(AskParts(ask));
    AskReads(ask);
  }

  lemma {:induction false} CallersIgnoreForm(cs: seq<Caller>)
    ensures CallerListParts(NormalCallers(cs)) == CallerListParts(cs) && |NormalCallers(cs)| == |cs|
  {
    if cs != [] {
      CallersIgnoreForm(cs[1..]);
      assert NormalCallers(cs)[1..] == NormalCallers(cs[1..]);
      assert CallerParts(NormalCaller(cs[0])) == CallerParts(cs[0]);
    }
  }

  lemma {:induction false} SecretsIgnoreForm(ss: seq<SecretAsk>)
    ensures SecretListParts(NormalSecrets(ss)) == SecretListParts(ss) && |NormalSecrets(ss)| == |ss|
  {
    if ss != [] {
      SecretsIgnoreForm(ss[1..]);
      assert NormalSecrets(ss)[1..] == NormalSecrets(ss[1..]);
      assert SecretParts(NormalSecret(ss[0])) == SecretParts(ss[0]);
    }
  }

  lemma {:induction false} CallersPartsIgnoreForm(cs: seq<Caller>)
    ensures CallersParts(NormalCallers(cs)) == CallersParts(cs)
  {
    hide CallerListParts, NormalCallers;
    CallersIgnoreForm(cs);
  }

  lemma {:induction false} SecretsPartsIgnoreForm(ss: seq<SecretAsk>)
    ensures SecretsParts(NormalSecrets(ss)) == SecretsParts(ss)
  {
    hide SecretListParts, NormalSecrets;
    SecretsIgnoreForm(ss);
  }

  lemma {:induction false} PartsIgnoreForm(ask: Ask)
    ensures AskParts(Normalise(ask)) == AskParts(ask)
  {
    hide CallersParts, SecretsParts, NormalCallers, NormalSecrets, FieldParts, NumberParts, BoolParts, StringsParts;
    match ask.subject {
      case Wrap(_, _, _, callers, secrets, _) =>
        CallersPartsIgnoreForm(callers);
        SecretsPartsIgnoreForm(secrets);
      case SshSign(_, _, _, callers, _, _, _, _) =>
        CallersPartsIgnoreForm(callers);
      case ScopedAgent(_, _, _, _) =>
    }
  }

  /** Two asks have the same canonical bytes exactly when they have the same normal form. */
  lemma {:induction false} CanonicalIsInjective(a: Ask, b: Ask)
    requires Framable(EncodeAll(AskParts(a))) && Framable(EncodeAll(AskParts(b)))
    ensures CanonicalBytes(a) == CanonicalBytes(b) <==> Normalise(a) == Normalise(b)
  {
    hide AskParts, EncodeAll, FrameAll, Normalise, DecodeAsk;
    DecodesToNormalForm(a);
    DecodesToNormalForm(b);
    PartsIgnoreForm(a);
    PartsIgnoreForm(b);
  }

  /** What a linked device signs: four fields, framed the same way. */
  datatype Payload = Payload(requestId: string, askHashHex: string, decision: string, nonce: string)

  function PayloadFields(p: Payload): Parts
  {
    [p.requestId, p.askHashHex, p.decision, p.nonce]
  }

  function PayloadBytes(p: Payload): Bytes
  {
    FrameAll(EncodeAll(PayloadFields(p)))
  }

  /** A signature covers exactly one payload. */
  lemma {:induction false} SignedBytesAreInjective(p: Payload, q: Payload)
    requires Framable(EncodeAll(PayloadFields(p))) && Framable(EncodeAll(PayloadFields(q)))
    ensures PayloadBytes(p) == PayloadBytes(q) <==> p == q
  {
    hide EncodeAll, FrameAll;
    if PayloadBytes(p) == PayloadBytes(q) {
      UnframeFrameAll(EncodeAll(PayloadFields(p)));
      UnframeFrameAll(EncodeAll(PayloadFields(q)));
      DecodeAllEncodeAll(PayloadFields(p));
      DecodeAllEncodeAll(PayloadFields(q));
      var f, g := PayloadFields(p), PayloadFields(q);
      assert f == g;
      assert f[0] == g[0] && f[1] == g[1] && f[2] == g[2] && f[3] == g[3];
    }
  }
}
