/** Length-prefixed framing: KIP messages, UDP-over-TCP datagrams, SOCKS5 addresses (section 5 of RFC 1928) and hellos. */
module Framing {
  import opened Common

  // ---------------------------------------------------------------------------
  // Big-endian numbers

  /** The low k bytes of n, as a conversion to a fixed width keeps them. */
  function Be(n: nat, k: nat): (b: Bytes)
    ensures |b| == k
  {
    if k == 0 then [] else Be(n / 256, k - 1) + [n % 256]
  }

  function FromBe(b: Bytes): nat {
    if b == [] then 0 else 256 * FromBe(b[..|b| - 1]) + b[|b| - 1]
  }

  function Exp256(k: nat): nat { if k == 0 then 1 else 256 * Exp256(k - 1) }

  lemma {:induction false} BeRoundTrip(n: nat, k: nat)
    requires n < Exp256(k)
    ensures FromBe(Be(n, k)) == n
  {
    if k > 0 {
      BeRoundTrip(n / 256, k - 1);
      assert Be(n, k)[..k - 1] == Be(n / 256, k - 1);
    }
  }

  lemma TwoBytes(n: nat)
    requires n <= 65536
    ensures FromBe(Be(n, 2)) == if n == 65536 then 0 else n
  {
    if n < 65536 {
      assert Exp256(2) == 65536 by { assert Exp256(1) == 256; }
      BeRoundTrip(n, 2);
    } else {
      var m, b := n / 256, Be(n, 2);
      assert m == 256 && m % 256 == 0 && Be(m, 1) == Be(m / 256, 0) + [0];
      assert b == [0] + [0] && b[..1] == [0] && b[..1][..0] == [];
      assert FromBe(b[..1]) == 256 * FromBe([]) + 0;
    }
  }

  /** What parsing a piece of a stream yields, and what is left. */
  datatype Parsed<T> = Parsed(value: T, rest: Bytes) | Failed

  lemma Sliced(a: Bytes, b: Bytes)
    ensures (a + b)[..|a|] == a && (a + b)[|a|..] == b
  {
  }

  // ---------------------------------------------------------------------------
  // KIP messages

  const MAGIC: Bytes := [0x6B, 0x69, 0x70]
  const MAX_PAYLOAD := 65536

  datatype Message = Message(kind: byte, payload: Bytes)

  function KipFrame(m: Message): Bytes {
    MAGIC + [m.kind] + Be(|m.payload|, 2) + m.payload
  }

  function ParseKip(s: Bytes): Parsed<Message> {
    if |s| < 6 || s[..3] != MAGIC then Failed
    else
      var n := FromBe(s[4..6]);
      if n > MAX_PAYLOAD || |s| < 6 + n then Failed
      else Parsed(Message(s[3], s[6..6 + n]), s[6 + n..])
  }

  lemma KipHeader(m: Message, rest: Bytes)
    ensures var s := KipFrame(m) + rest;
      |s| >= 6 && s[..3] == MAGIC && s[3] == m.kind && s[4..6] == Be(|m.payload|, 2) && s[6..] == m.payload + rest
  {
    var s := KipFrame(m) + rest;
    assert s == MAGIC + ([m.kind] + (Be(|m.payload|, 2) + (m.payload + rest)));
  }

  /** A message comes back, with the stream at its end, exactly if its length fits the two length bytes. */
  lemma KipRoundTripIff(m: Message, rest: Bytes)
    requires |m.payload| <= MAX_PAYLOAD
    ensures ParseKip(KipFrame(m) + rest) == Parsed(m, rest) <==> |m.payload| <= 65535
    ensures ParseKip(KipFrame(m) + rest).Parsed?
  {
    var s, n := KipFrame(m) + rest, |m.payload|;
    KipHeader(m, rest);
    TwoBytes(n);
    if n <= 65535 {
      Sliced(m.payload, rest);
      assert s[6..6 + n] == s[6..][..n] && s[6 + n..] == s[6..][n..];
    }
  }

  function Frames(ms: seq<Message>): Bytes {
    if ms == [] then [] else KipFrame(ms[0]) + Frames(ms[1..])
  }

  /** Messages until the stream ends; None if it does not end at the end of a message. */
  function ParseAll(s: Bytes): Option<seq<Message>>
    decreases |s|
  {
    if s == [] then Some([])
    else match ParseKip(s)
      case Failed => None
      case Parsed(m, rest) =>
        match ParseAll(rest)
        case None => None
        case Some(ms) => Some([m] + ms)
  }

  /** Something holds of all of a list if it holds of the first and of all the others. */
  lemma AllOrFirst<T>(list: seq<T>, good: T -> bool)
    requires list != []
    ensures (forall i | 0 <= i < |list| :: good(list[i]))
      <==> good(list[0]) && forall i | 0 <= i < |list[1..]| :: good(list[1..][i])
  {
    assert forall i | 1 <= i < |list| :: list[i] == list[1..][i - 1];
  }

  lemma FirstMessage(m: Message, rest: Bytes, tail: seq<Message>)
    requires |m.payload| <= MAX_PAYLOAD
    ensures ParseAll(KipFrame(m) + rest) == Some([m] + tail) <==> |m.payload| <= 65535 && ParseAll(rest) == Some(tail)
  {
    KipRoundTripIff(m, rest);
    if |m.payload| == MAX_PAYLOAD { TooLongIsLost(m, rest); }
    match ParseKip(KipFrame(m) + rest) {
      case Parsed(first, left) =>
        if ParseAll(left).Some? {
          var ms := ParseAll(left).value;
          assert ([first] + ms)[0] == first && ([first] + ms)[1..] == ms;
          assert ([m] + tail)[0] == m && ([m] + tail)[1..] == tail;
        }
    }
  }

  lemma TooLongIsLost(m: Message, rest: Bytes)
    requires |m.payload| == MAX_PAYLOAD
    ensures var p := ParseKip(KipFrame(m) + rest); p.Parsed? && p.value.payload == []
  {
    KipHeader(m, rest);
    TwoBytes(|m.payload|);
  }

  /** Messages written back to back parse to the same list if and only if every payload fits. */
  lemma {:induction false} MessagesRoundTripIff(ms: seq<Message>)
    requires forall i | 0 <= i < |ms| :: |ms[i].payload| <= MAX_PAYLOAD
    ensures ParseAll(Frames(ms)) == Some(ms) <==> forall i | 0 <= i < |ms| :: |ms[i].payload| <= 65535
  {
    if ms != [] {
      MessagesRoundTripIff(ms[1..]);
      FirstMessage(ms[0], Frames(ms[1..]), ms[1..]);
      assert ms == [ms[0]] + ms[1..];
      AllOrFirst(ms, (m: Message) => |m.payload| <= 65535);
    }
  }

  // ---------------------------------------------------------------------------
  // Addresses

  /** Host text once parsed: an IP of either family, or anything else. */
  datatype Host = V4(ip: Bytes) | V6(ip: Bytes) | Domain(name: Bytes)
  datatype Address = Address(host: Host, port: nat)

  predicate GoodAddress(a: Address) {
    a.port < 65536 && (a.host.V4? ==> |a.host.ip| == 4) && (a.host.V6? ==> |a.host.ip| == 16)
  }

  const MAPPED: Bytes := [0, 0, 0, 0, 0, 0, 0, 0, 0, 0, 0xFF, 0xFF]

  /** An IPv4-mapped IPv6 address is taken for the IPv4 address in it. */
  function Unmapped(h: Host): Host {
    if h.V6? && |h.ip| == 16 && h.ip[..12] == MAPPED then V4(h.ip[12..]) else h
  }

  /** IPv6 addresses are taken for IPv4 ones exactly in ::ffff:0:0/96; no other host changes. */
  lemma MappedIsV4(h: Host)
    requires h.V6? ==> |h.ip| == 16
    ensures if h.V6? && (forall i | 0 <= i < 10 :: h.ip[i] == 0) && h.ip[10] == h.ip[11] == 0xFF
      then Unmapped(h) == V4(h.ip[12..]) && |Unmapped(h).ip| == 4 else Unmapped(h) == h
  {
    if h.V6? {
      var head := h.ip[..12];
      assert forall i | 0 <= i < 12 :: head[i] == h.ip[i];
      if head == MAPPED { assert forall i | 0 <= i < 10 :: h.ip[i] == MAPPED[i] == 0; }
    }
  }

  function EncodeAddress(a: Address): Option<Bytes> {
    var port := Be(a.port, 2);
    match Unmapped(a.host)
    case V4(ip) => Some([0x01] + ip + port)
    case V6(ip) => Some([0x04] + ip + port)
    case Domain(name) => if |name| > 255 then None else Some([0x03, |name|] + name + port)
  }

  function TakeHost(s: Bytes, n: nat): Parsed<(Bytes, nat)> {
    if |s| < n + 2 then Failed else Parsed((s[..n], FromBe(s[n..n + 2])), s[n + 2..])
  }

  function DecodeAddress(s: Bytes): Parsed<Address> {
    if s == [] then Failed
    else if s[0] == 0x01 then
      (match TakeHost(s[1..], 4) case Failed => Failed case Parsed(v, rest) => Parsed(Address(V4(v.0), v.1), rest))
    else if s[0] == 0x04 then
      (match TakeHost(s[1..], 16) case Failed => Failed case Parsed(v, rest) => Parsed(Address(V6(v.0), v.1), rest))
    else if s[0] == 0x03 then
      if |s| < 2 then Failed
      else match TakeHost(s[2..], s[1]) case Failed => Failed case Parsed(v, rest) => Parsed(Address(Domain(v.0), v.1), rest)
    else Failed
  }

  lemma TakeHostBack(name: Bytes, port: nat, rest: Bytes)
    requires port < 65536
    ensures TakeHost(name + Be(port, 2) + rest, |name|) == Parsed((name, port), rest)
  {
    var s := name + Be(port, 2) + rest;
    assert s[..|name|] == name && s[|name|..|name| + 2] == Be(port, 2) && s[|name| + 2..] == rest;
    TwoBytes(port);
  }

  /** What stands behind a tag of one or two bytes. */
  lemma Behind(tag: Bytes, host: Bytes, port: Bytes, rest: Bytes)
    ensures tag + host + port + rest == tag + (host + port + rest)
    ensures (tag + host + port + rest)[|tag|..] == host + port + rest
    ensures forall i | 0 <= i < |tag| :: (tag + host + port + rest)[i] == tag[i]
  {
  }

  /** Section 5 of RFC 1928: an address is refused only for a long domain, and otherwise comes back unmapped. */
  lemma AddressRoundTrip(a: Address, rest: Bytes)
    requires GoodAddress(a)
    ensures EncodeAddress(a) == None <==> a.host.Domain? && |a.host.name| > 255
    ensures EncodeAddress(a).Some? ==>
      EncodeAddress(a).value != [] && |EncodeAddress(a).value| <= 259
      && DecodeAddress(EncodeAddress(a).value + rest) == Parsed(a.(host := Unmapped(a.host)), rest)
  {
    if EncodeAddress(a).Some? {
      match Unmapped(a.host) {
        case V4(ip) =>
          TakeHostBack(ip, a.port, rest);
          Behind([0x01], ip, Be(a.port, 2), rest);
        case V6(ip) =>
          TakeHostBack(ip, a.port, rest);
          Behind([0x04], ip, Be(a.port, 2), rest);
        case Domain(name) =>
          TakeHostBack(name, a.port, rest);
          Behind([0x03, |name|], name, Be(a.port, 2), rest);
      }
    }
  }

  // ---------------------------------------------------------------------------
  // Datagrams

  datatype Datagram = Datagram(addr: Address, payload: Bytes)

  function DatagramFrame(d: Datagram): Option<Bytes> {
    match EncodeAddress(d.addr)
    case None => None
    case Some(addr) =>
      if addr == [] || |addr| > MAX_PAYLOAD || |d.payload| > MAX_PAYLOAD then None
      else Some(Be(|addr|, 2) + Be(|d.payload|, 2) + addr + d.payload)
  }

  /** readDatagramHeaderAndAddress: the address and the payload length still to be read. */
  function ParseHeader(s: Bytes): Parsed<(Address, nat)> {
    if |s| < 4 then Failed
    else
      var addrLen, n := FromBe(s[..2]), FromBe(s[2..4]);
      if addrLen == 0 || addrLen > MAX_PAYLOAD || n > MAX_PAYLOAD || |s| < 4 + addrLen then Failed
      else match DecodeAddress(s[4..4 + addrLen])
        case Failed => Failed
        case Parsed(addr, _) => Parsed((addr, n), s[4 + addrLen..])
  }

  function ParseDatagram(s: Bytes): Parsed<Datagram> {
    match ParseHeader(s)
    case Failed => Failed
    case Parsed(h, rest) =>
      if |rest| < h.1 then Failed else Parsed(Datagram(h.0, rest[..h.1]), rest[h.1..])
  }

  function Canonical(d: Datagram): Datagram { d.(addr := d.addr.(host := Unmapped(d.addr.host))) }

  /** Datagrams the writer accepts. */
  predicate Writable(d: Datagram) {
    GoodAddress(d.addr) && (d.addr.host.Domain? ==> |d.addr.host.name| <= 255) && |d.payload| <= MAX_PAYLOAD
  }

  lemma HeaderBack(d: Datagram, rest: Bytes)
    requires Writable(d)
    ensures DatagramFrame(d).Some?
    ensures ParseHeader(DatagramFrame(d).value + rest)
         == Parsed((Canonical(d).addr, if |d.payload| == 65536 then 0 else |d.payload|), d.payload + rest)
  {
    AddressRoundTrip(d.addr, []);
    var addr := EncodeAddress(d.addr).value;
    HeaderSlices(Be(|addr|, 2), Be(|d.payload|, 2), addr, d.payload, rest);
    assert addr + [] == addr;
    TwoBytes(|addr|);
    TwoBytes(|d.payload|);
  }

  lemma HeaderSlices(x: Bytes, y: Bytes, addr: Bytes, payload: Bytes, rest: Bytes)
    requires |x| == 2 && |y| == 2
    ensures var s := x + y + addr + payload + rest;
      |s| >= 4 + |addr| && s[..2] == x && s[2..4] == y && s[4..4 + |addr|] == addr && s[4 + |addr|..] == payload + rest
  {
    var s := x + y + addr + payload + rest;
    assert s == x + (y + (addr + (payload + rest)));
  }

  lemma DatagramRoundTripIff(d: Datagram, rest: Bytes)
    requires Writable(d)
    ensures DatagramFrame(d).Some?
    ensures ParseDatagram(DatagramFrame(d).value + rest) == Parsed(Canonical(d), rest) <==> |d.payload| <= 65535
    ensures |d.payload| == MAX_PAYLOAD ==> ParseDatagram(DatagramFrame(d).value + rest) == Parsed(Canonical(d).(payload := []), d.payload + rest)
  {
    HeaderBack(d, rest);
    Sliced(d.payload, rest);
    Sliced([], d.payload + rest);
    assert [] + (d.payload + rest) == d.payload + rest;
  }

  function DatagramWire(ds: seq<Datagram>): Bytes
    requires forall i | 0 <= i < |ds| :: Writable(ds[i])
  {
    if ds == [] then []
    else
      HeaderBack(ds[0], []);
      DatagramFrame(ds[0]).value + DatagramWire(ds[1..])
  }

  function ParseDatagrams(s: Bytes): Option<seq<Datagram>>
    decreases |s|
  {
    if s == [] then Some([])
    else match ParseDatagram(s)
      case Failed => None
      case Parsed(d, rest) =>
        match ParseDatagrams(rest)
        case None => None
        case Some(ds) => Some([d] + ds)
  }

  function CanonicalAll(ds: seq<Datagram>): seq<Datagram> {
    if ds == [] then [] else [Canonical(ds[0])] + CanonicalAll(ds[1..])
  }

  lemma FirstDatagram(d: Datagram, rest: Bytes, tail: seq<Datagram>)
    requires Writable(d)
    requires DatagramFrame(d).Some?
    ensures ParseDatagrams(DatagramFrame(d).value + rest) == Some([Canonical(d)] + tail)
      <==> |d.payload| <= 65535 && ParseDatagrams(rest) == Some(tail)
  {
    DatagramRoundTripIff(d, rest);
    var s := DatagramFrame(d).value + rest;
    match ParseDatagram(s) {
      case Parsed(first, left) =>
        if ParseDatagrams(left).Some? {
          var ds := ParseDatagrams(left).value;
          assert ([first] + ds)[0] == first && ([first] + ds)[1..] == ds;
          assert ([Canonical(d)] + tail)[0] == Canonical(d) && ([Canonical(d)] + tail)[1..] == tail;
        }
    }
  }

  /** The same for datagrams, whose addresses come back in canonical form. */
  lemma {:induction false} DatagramsRoundTripIff(ds: seq<Datagram>)
    requires forall i | 0 <= i < |ds| :: Writable(ds[i])
    ensures ParseDatagrams(DatagramWire(ds)) == Some(CanonicalAll(ds)) <==> forall i | 0 <= i < |ds| :: |ds[i].payload| <= 65535
  {
    if ds != [] {
      DatagramsRoundTripIff(ds[1..]);
      HeaderBack(ds[0], []);
      FirstDatagram(ds[0], DatagramWire(ds[1..]), CanonicalAll(ds[1..]));
      AllOrFirst(ds, (d: Datagram) => |d.payload| <= 65535);
    }
  }

  // ---------------------------------------------------------------------------
  // Byte by byte

  /** The number in two bytes. */
  function Word(high: nat, low: nat): nat { 256 * high + low }

  lemma BeTwo(n: nat)
    requires n <= 65535
    ensures Be(n, 2) == [n / 256, n % 256] && FromBe(Be(n, 2)) == n
  {
    TwoBytes(n);
    assert Be(n / 256, 1) == Be(n / 256 / 256, 0) + [n / 256 % 256];
  }

  lemma FromTwo(b: Bytes)
    requires |b| == 2
    ensures FromBe(b) == Word(b[0], b[1])
  {
    assert b[..1][..0] == [] && b[..1][0] == b[0];
    assert FromBe(b[..1]) == 256 * FromBe([]) + b[0];
  }

  /** "kip", the type, the length in two bytes with the high one first, the payload. */
  lemma KipLayout(m: Message)
    requires |m.payload| <= 65535
    ensures var f := KipFrame(m);
      && |f| == 6 + |m.payload| && f[..4] == [0x6B, 0x69, 0x70, m.kind]
      && Word(f[4], f[5]) == |m.payload| && f[6..] == m.payload
  {
    BeTwo(|m.payload|);
    KipHeader(m, []);
    assert KipFrame(m) + [] == KipFrame(m) && m.payload + [] == m.payload;
    assert KipFrame(m)[4..6] == Be(|m.payload|, 2);
  }

  /** Exactly the streams that start with a whole message are read as one. */
  lemma ParseKipIff(s: Bytes)
    ensures ParseKip(s).Parsed?
      <==> |s| >= 6 && s[0] == 0x6B && s[1] == 0x69 && s[2] == 0x70 && |s| >= 6 + Word(s[4], s[5])
    ensures ParseKip(s).Parsed? ==> KipFrame(ParseKip(s).value) + ParseKip(s).rest == s
  {
    if |s| >= 6 {
      assert s[..3] == [s[0], s[1], s[2]];
      FromTwo(s[4..6]);
      if ParseKip(s).Parsed? {
        var n := FromBe(s[4..6]);
        BeTwo(n);
        assert s[4..6] == Be(n, 2) by { TwoBytesBack(s[4], s[5]); }
        assert s == s[..3] + [s[3]] + s[4..6] + s[6..6 + n] + s[6 + n..];
      }
    }
  }

  lemma TwoBytesBack(high: byte, low: byte)
    ensures Be(Word(high, low), 2) == [high, low]
  {
    var n := Word(high, low);
    assert n / 256 == high && n % 256 == low;
    BeTwo(n);
  }

  /** The length of the address that s starts with, by its type: IPv4 is 1, IPv6 is 4, a domain is 3 with its length behind it. */
  function AddressLength(s: Bytes): Option<nat> {
    if s == [] then None
    else if s[0] == 1 then Some(1 + 4 + 2)
    else if s[0] == 4 then Some(1 + 16 + 2)
    else if s[0] == 3 && |s| >= 2 then Some(2 + s[1] as nat + 2)
    else None
  }

  /** Sections 4 and 5 of RFC 1928: the type byte of each kind of host, then the host, then the port with its high byte first. */
  lemma AddressLayout(a: Address)
    requires GoodAddress(a) && EncodeAddress(a).Some?
    ensures var (b, h) := (EncodeAddress(a).value, Unmapped(a.host));
      && AddressLength(b) == Some(|b|)
      && b[|b| - 2..] == [a.port / 256, a.port % 256]
      && (h.V4? ==> b[0] == 1 && b[1..5] == h.ip)
      && (h.V6? ==> b[0] == 4 && b[1..17] == h.ip)
      && (h.Domain? ==> b[0] == 3 && b[1] == |h.name| && b[2..|b| - 2] == h.name)
  {
    BeTwo(a.port);
  }

  /** Exactly the streams that start with a whole address of one of the three types are read as one, to its end. */
  lemma DecodeAddressIff(s: Bytes)
    ensures DecodeAddress(s).Parsed? <==> AddressLength(s).Some? && AddressLength(s).value <= |s|
    ensures DecodeAddress(s).Parsed? ==>
      && DecodeAddress(s).rest == s[AddressLength(s).value..]
      && (s[0] == 1 <==> DecodeAddress(s).value.host.V4?) && (s[0] == 4 <==> DecodeAddress(s).value.host.V6?)
  {
  }

  /** Two lengths of two bytes, of the address and of the payload, then the two. */
  lemma DatagramLayout(d: Datagram)
    requires Writable(d) && |d.payload| <= 65535
    ensures DatagramFrame(d).Some? && EncodeAddress(d.addr).Some?
    ensures var (f, addr) := (DatagramFrame(d).value, EncodeAddress(d.addr).value);
      && |f| == 4 + |addr| + |d.payload|
      && Word(f[0], f[1]) == |addr| && Word(f[2], f[3]) == |d.payload|
      && f[4..4 + |addr|] == addr && f[4 + |addr|..] == d.payload
  {
    AddressRoundTrip(d.addr, []);
    var addr := EncodeAddress(d.addr).value;
    BeTwo(|addr|);
    BeTwo(|d.payload|);
    HeaderSlices(Be(|addr|, 2), Be(|d.payload|, 2), addr, d.payload, []);
    var f := DatagramFrame(d).value;
    assert f + [] == f && d.payload + [] == d.payload;
    assert f[..2] == Be(|addr|, 2) && f[2..4] == Be(|d.payload|, 2);
  }

  // ---------------------------------------------------------------------------
  // Hellos

  const HASH := 8
  const NONCE := 16
  const PUB := 32

  /** `time` is a signed 64-bit Unix time. */
  datatype ClientHello = ClientHello(time: int, user: Bytes, nonce: Bytes, pub: Bytes, feats: nat, hint: nat, hasHint: bool)

  predicate GoodHello(h: ClientHello) {
    && -0x8000_0000_0000_0000 <= h.time < 0x8000_0000_0000_0000
    && |h.user| == HASH && |h.nonce| == NONCE && |h.pub| == PUB && h.feats < 0x1_0000_0000 && h.hint < 0x1_0000_0000
  }

  function Unsigned(t: int): nat
    requires -0x8000_0000_0000_0000 <= t
  {
    if t < 0 then t + 0x1_0000_0000_0000_0000 else t
  }

  function Signed(u: nat): int { if u >= 0x8000_0000_0000_0000 then u - 0x1_0000_0000_0000_0000 else u }

  function HelloPayload(h: ClientHello): Bytes
    requires GoodHello(h)
  {
    Be(Unsigned(h.time), 8) + h.user + h.nonce + h.pub + Be(h.feats, 4) + (if h.hasHint then Be(h.hint, 4) else [])
  }

  function ParseHello(p: Bytes): Option<ClientHello> {
    if |p| < 68 then None
    else
      var hasHint := |p| >= 72;
      Some(ClientHello(Signed(FromBe(p[..8])), p[8..16], p[16..32], p[32..64], FromBe(p[64..68]),
                       if hasHint then FromBe(p[68..72]) else 0, hasHint))
  }

  lemma Widths()
    ensures Exp256(4) == 0x1_0000_0000 && Exp256(8) == 0x1_0000_0000_0000_0000
  {
    assert Exp256(2) == 65536 by { assert Exp256(1) == 256; }
    assert Exp256(4) == 256 * Exp256(3) && Exp256(3) == 256 * Exp256(2);
    assert Exp256(8) == 256 * Exp256(7) && Exp256(7) == 256 * Exp256(6) && Exp256(6) == 256 * Exp256(5) && Exp256(5) == 256 * Exp256(4);
  }

  lemma HelloFields(h: ClientHello)
    requires GoodHello(h)
    ensures var p := HelloPayload(h);
      && |p| == (if h.hasHint then 72 else 68)
      && p[..8] == Be(Unsigned(h.time), 8) && p[8..16] == h.user && p[16..32] == h.nonce && p[32..64] == h.pub
      && p[64..68] == Be(h.feats, 4) && (h.hasHint ==> p[68..72] == Be(h.hint, 4))
  {
  }

  /** A client hello comes back, with and without a table hint; only a hint that was set but not sent is lost. */
  lemma HelloRoundTripIff(h: ClientHello)
    requires GoodHello(h)
    ensures ParseHello(HelloPayload(h)) == Some(h.(hint := if h.hasHint then h.hint else 0))
    ensures ParseHello(HelloPayload(h)) == Some(h) <==> h.hasHint || h.hint == 0
  {
    HelloFields(h);
    Widths();
    BeRoundTrip(Unsigned(h.time), 8);
    BeRoundTrip(h.feats, 4);
    if h.hasHint { BeRoundTrip(h.hint, 4); }
  }

  datatype ServerHello = ServerHello(nonce: Bytes, pub: Bytes, feats: nat)

  function ServerPayload(h: ServerHello): Bytes { h.nonce + h.pub + Be(h.feats, 4) }

  function ParseServer(p: Bytes): Option<ServerHello> {
    if |p| != NONCE + PUB + 4 then None else Some(ServerHello(p[..16], p[16..48], FromBe(p[48..52])))
  }

  lemma ServerRoundTrip(h: ServerHello)
    requires |h.nonce| == NONCE && |h.pub| == PUB && h.feats < 0x1_0000_0000
    ensures ParseServer(ServerPayload(h)) == Some(h)
  {
    var p := ServerPayload(h);
    assert p[..16] == h.nonce && p[16..48] == h.pub && p[48..52] == Be(h.feats, 4);
    Widths();
    BeRoundTrip(h.feats, 4);
  }

  // ---------------------------------------------------------------------------
  // On a stream

  /** A reliable byte stream; a read that runs short takes what is there and fails. */
  class Stream {
    var data: Bytes

    constructor ()
      ensures data == []
    {
      data := [];
    }

    method Write(b: Bytes)
      modifies this
      ensures data == old(data) + b
    {
      data := data + b;
    }

    method ReadFull(n: nat) returns (ok: bool, b: Bytes)
      modifies this
      ensures ok == (n <= |old(data)|)
      ensures ok ==> b == old(data)[..n] && data == old(data)[n..]
      ensures !ok ==> data == []
    {
      if n > |data| {
        b, data := data, [];
        return false, b;
      }
      ok, b, data := true, data[..n], data[n..];
    }
  }

  method WriteMessage(w: Stream, kind: byte, payload: Bytes) returns (ok: bool)
    modifies w
    ensures ok == (|payload| <= MAX_PAYLOAD)
    ensures w.data == if ok then old(w.data) + KipFrame(Message(kind, payload)) else old(w.data)
  {
    if |payload| > MAX_PAYLOAD { return false; }
    var hdr := MAGIC + [kind] + Be(|payload|, 2);
    w.Write(hdr);
    w.Write(payload);
    ConcatAssoc(old(w.data), hdr, payload);
    ok := true;
  }

  method ReadMessage(r: Stream) returns (m: Option<Message>)
    modifies r
    ensures match ParseKip(old(r.data))
      case Parsed(v, rest) => m == Some(v) && r.data == rest
      case Failed => m == None
  {
    ghost var s := r.data;
    var ok, hdr := r.ReadFull(6);
    if !ok { return None; }
    assert hdr[..3] == s[..3] && hdr[4..6] == s[4..6];
    if hdr[..3] != MAGIC { return None; }
    var n := FromBe(hdr[4..6]);
    if n > MAX_PAYLOAD { return None; }
    var payload: Bytes := [];
    if n > 0 {
      ok, payload := r.ReadFull(n);
      if !ok { return None; }
    }
    assert payload == s[6..6 + n] && r.data == s[6 + n..] && hdr[3] == s[3];
    m := Some(Message(hdr[3], payload));
  }

  method WriteDatagram(w: Stream, d: Datagram) returns (ok: bool)
    modifies w
    ensures ok == DatagramFrame(d).Some?
    ensures w.data == old(w.data) + (if ok then DatagramFrame(d).value else [])
  {
    var addr := EncodeAddress(d.addr);
    if addr.None? { return false; }
    if addr.value == [] || |addr.value| > MAX_PAYLOAD { return false; }
    if |d.payload| > MAX_PAYLOAD { return false; }
    var header := Be(|addr.value|, 2) + Be(|d.payload|, 2);
    w.Write(header);
    w.Write(addr.value);
    w.Write(d.payload);
    assert old(w.data) + header + addr.value + d.payload == old(w.data) + (header + addr.value + d.payload);
    ok := true;
  }

  method ReadHeader(r: Stream) returns (h: Option<(Address, nat)>)
    modifies r
    ensures match ParseHeader(old(r.data))
      case Parsed(v, rest) => h == Some(v) && r.data == rest
      case Failed => h == None
  {
    ghost var s := r.data;
    var ok, header := r.ReadFull(4);
    if !ok { return None; }
    assert header[..2] == s[..2] && header[2..4] == s[2..4];
    var addrLen, n := FromBe(header[..2]), FromBe(header[2..4]);
    if addrLen == 0 || addrLen > MAX_PAYLOAD { return None; }
    if n > MAX_PAYLOAD { return None; }
    var addrBuf;
    ok, addrBuf := r.ReadFull(addrLen);
    if !ok { return None; }
    assert s[4..][..addrLen] == s[4..4 + addrLen] && s[4..][addrLen..] == s[4 + addrLen..];
    match DecodeAddress(addrBuf) {
      case Failed => h := None;
      case Parsed(addr, _) => h := Some((addr, n));
    }
  }

  method ReadDatagram(r: Stream) returns (d: Option<Datagram>)
    modifies r
    ensures match ParseDatagram(old(r.data))
      case Parsed(v, rest) => d == Some(v) && r.data == rest
      case Failed => d == None
  {
    var h := ReadHeader(r);
    if h.None? { return None; }
    var ok, payload := r.ReadFull(h.value.1);
    if !ok { return None; }
    d := Some(Datagram(h.value.0, payload));
  }

  // ---------------------------------------------------------------------------
  // Packet reads

  datatype Received = Got(payload: Bytes, from: Address) | ShortBuffer | Broken

  /** ReadFrom: datagrams from domains are skipped, one that does not fit is dropped and reported. */
  function Receive(s: Bytes, size: nat): (r: (Received, Bytes))
    ensures |r.1| <= |s|
    decreases |s|
  {
    match ParseHeader(s)
    case Failed => (Broken, [])
    case Parsed(h, rest) =>
      if |rest| < h.1 then (Broken, [])
      else if h.1 > size then (ShortBuffer, rest[h.1..])
      else if h.0.host.Domain? then Receive(rest[h.1..], size)
      else (Got(rest[..h.1], h.0.(host := Unmapped(h.0.host))), rest[h.1..])
  }

  method ReadFrom(r: Stream, size: nat) returns (got: Received)
    modifies r
    ensures got == Receive(old(r.data), size).0
    ensures got != Broken ==> r.data == Receive(old(r.data), size).1
  {
    while true
      invariant Receive(r.data, size) == Receive(old(r.data), size)
      decreases |r.data|
    {
      ghost var s := r.data;
      var h := ReadHeader(r);
      if h.None? { return Broken; }
      var (addr, n) := h.value;
      if n > size {
        var ok, _ := r.ReadFull(n);
        return if ok then ShortBuffer else Broken;
      }
      var ok, payload := r.ReadFull(n);
      if !ok { return Broken; }
      if !addr.host.Domain? { return Got(payload, addr.(host := Unmapped(addr.host))); }
    }
  }

  /** The datagram a packet read stops at, by position; past the end if all are skipped. */
  function StopsAt(ds: seq<Datagram>, size: nat): (k: nat)
    ensures k <= |ds|
  {
    if ds == [] || |ds[0].payload| > size || !ds[0].addr.host.Domain? then 0 else 1 + StopsAt(ds[1..], size)
  }

  lemma UnmappedTwice(h: Host)
    requires h.V4? ==> |h.ip| == 4
    ensures Unmapped(Unmapped(h)) == Unmapped(h) && (Unmapped(h).Domain? <==> h.Domain?)
  {
  }

  lemma ReceiveOne(d: Datagram, rest: Bytes, size: nat)
    requires Writable(d) && |d.payload| <= 65535 && DatagramFrame(d).Some?
    ensures Receive(DatagramFrame(d).value + rest, size)
      == (if |d.payload| > size then (ShortBuffer, rest)
          else if d.addr.host.Domain? then Receive(rest, size)
          else (Got(d.payload, Canonical(d).addr), rest))
  {
    HeaderBack(d, rest);
    Sliced(d.payload, rest);
    UnmappedTwice(d.addr.host);
  }

  /** What a packet read leaves of the datagrams it stopped at or skipped. */
  ghost predicate Left(ds: seq<Datagram>, size: nat, r: (Received, Bytes))
    requires forall i | 0 <= i < |ds| :: Writable(ds[i])
  {
    var k := StopsAt(ds, size);
    if k == |ds| then r.0 == Broken
    else r.0 == (if |ds[k].payload| > size then ShortBuffer else Got(ds[k].payload, Canonical(ds[k]).addr))
         && r.1 == DatagramWire(ds[k + 1..])
  }

  lemma LeftLater(ds: seq<Datagram>, size: nat, r: (Received, Bytes))
    requires forall i | 0 <= i < |ds| :: Writable(ds[i])
    requires ds != [] && StopsAt(ds, size) > 0 && Left(ds[1..], size, r)
    ensures Left(ds, size, r)
  {
    var k := StopsAt(ds[1..], size);
    if k < |ds[1..]| { assert ds[1..][k + 1..] == ds[k + 2..] && ds[1..][k] == ds[k + 1]; }
  }

  /** Whatever is skipped or dropped, a packet read never loses the framing: it ends at the start of a datagram. */
  lemma {:induction false} ReceiveKeepsFraming(ds: seq<Datagram>, size: nat)
    requires forall i | 0 <= i < |ds| :: Writable(ds[i]) && |ds[i].payload| <= 65535
    ensures Left(ds, size, Receive(DatagramWire(ds), size))
  {
    if ds != [] {
      HeaderBack(ds[0], []);
      ReceiveOne(ds[0], DatagramWire(ds[1..]), size);
      if StopsAt(ds, size) > 0 {
        ReceiveKeepsFraming(ds[1..], size);
        LeftLater(ds, size, Receive(DatagramWire(ds[1..]), size));
      }
    }
  }
}
