/**
 The packed codec: payload bits cut into six-bit groups, sent as layout bytes
 with padding in between. Two-bit digits are the common measure: a byte is four
 of them, a group three.
 */
module Packed {
  import opened Common
  import opened Layout

  type Digit = d: int | 0 <= d < 4
  type Group = g: int | 0 <= g < 64

  // ---------------------------------------------------------------------------
  // Digits

  function ByteDigits(b: byte): seq<Digit> { [b / 64, (b / 16) % 4, (b / 4) % 4, b % 4] }

  function GroupDigits(g: Group): seq<Digit> { [g / 16, (g / 4) % 4, g % 4] }

  function Number(v: int, a: int, b: int, c: int, d: int): int { 256 * v + 64 * a + 16 * b + 4 * c + d }

  function ToByte(d: seq<Digit>): byte
    requires |d| >= 4
  {
    Number(0, d[0], d[1], d[2], d[3])
  }

  function ToGroup(d: seq<Digit>): Group
    requires |d| >= 3
  {
    Number(0, 0, d[0], d[1], d[2])
  }

  function Digits(p: Bytes): seq<Digit> {
    if p == [] then [] else Digits(p[..|p| - 1]) + ByteDigits(p[|p| - 1])
  }

  function DigitsOfGroups(gs: seq<Group>): seq<Digit> {
    if gs == [] then [] else DigitsOfGroups(gs[..|gs| - 1]) + GroupDigits(gs[|gs| - 1])
  }

  lemma {:induction false} DigitsConcat(p: Bytes, q: Bytes)
    ensures Digits(p + q) == Digits(p) + Digits(q) && |Digits(q)| == 4 * |q|
    decreases |q|
  {
    if q == [] {
      assert p + q == p;
    } else {
      assert (p + q)[..|p + q| - 1] == p + q[..|q| - 1];
      DigitsConcat(p, q[..|q| - 1]);
    }
  }

  lemma {:induction false} GroupsConcat(a: seq<Group>, b: seq<Group>)
    ensures DigitsOfGroups(a + b) == DigitsOfGroups(a) + DigitsOfGroups(b) && |DigitsOfGroups(b)| == 3 * |b|
    decreases |b|
  {
    if b == [] {
      assert a + b == a;
    } else {
      assert (a + b)[..|a + b| - 1] == a + b[..|b| - 1];
      GroupsConcat(a, b[..|b| - 1]);
    }
  }

  lemma ByteInverse(b: byte)
    ensures ToByte(ByteDigits(b)) == b
  {
    assert b / 4 / 4 == b / 16 && b / 16 / 4 == b / 64;
    assert b == 4 * (b / 4) + b % 4 && b / 4 == 4 * (b / 16) + (b / 4) % 4 && b / 16 == 4 * (b / 64) + (b / 16) % 4;
  }

  lemma GroupInverse(d: seq<Digit>)
    requires |d| >= 3
    ensures GroupDigits(ToGroup(d)) == d[..3]
  {
    ThreeParts(d[0], d[1], d[2]);
  }

  lemma ThreeParts(a: Digit, b: Digit, c: Digit)
    ensures var v := Number(0, 0, a, b, c); 0 <= v < 64 && v / 16 == a && (v / 4) % 4 == b && v % 4 == c
  {
    assert Number(0, 0, a, b, c) / 4 == 4 * a + b;
  }

  lemma BytesOfDigits(d: seq<Digit>)
    requires |d| >= 4
    ensures ByteDigits(ToByte(d)) == d[..4]
  {
    FourParts(d[0], d[1], d[2], d[3]);
  }

  lemma FourParts(a: Digit, b: Digit, c: Digit, d: Digit)
    ensures var v := Number(0, a, b, c, d);
      0 <= v < 256 && v / 64 == a && (v / 16) % 4 == b && (v / 4) % 4 == c && v % 4 == d
  {
    var v := Number(0, a, b, c, d);
    assert v / 4 == 16 * a + 4 * b + c && v / 16 == 4 * a + b;
  }

  /** The low n digits of a number, most significant first: what a bit buffer of 2n bits holds. */
  function ToDigits(v: nat, n: nat): (d: seq<Digit>)
    ensures |d| == n
  {
    if n == 0 then [] else ToDigits(v / 4, n - 1) + [v % 4]
  }

  lemma PushDigit(v: nat, n: nat, d: nat)
    requires d < 4
    ensures ToDigits(v * 4 + d, n + 1) == ToDigits(v, n) + [d]
  {
    var w := v * 4 + d;
    assert w / 4 == v && w % 4 == d;
  }

  lemma ByteInDigits(b: byte)
    ensures b == 64 * (b / 64) + 16 * ((b / 16) % 4) + 4 * ((b / 4) % 4) + b % 4
  {
  }

  lemma PushByte(v: nat, n: nat, b: byte)
    ensures ToDigits(v * 256 + b, n + 4) == ToDigits(v, n) + ByteDigits(b)
  {
    var d3, d2, d1, d0 := b / 64, (b / 16) % 4, (b / 4) % 4, b % 4;
    var v1 := v * 4 + d3;
    var v2 := v1 * 4 + d2;
    var v3 := v2 * 4 + d1;
    ByteInDigits(b);
    assert v3 * 4 + d0 == v * 256 + b;
    PushDigit(v, n, d3);
    PushDigit(v1, n + 1, d2);
    PushDigit(v2, n + 2, d1);
    PushDigit(v3, n + 3, d0);
  }

  lemma PushGroup(v: nat, n: nat, g: Group)
    ensures ToDigits(v * 64 + g, n + 3) == ToDigits(v, n) + GroupDigits(g)
  {
    var d2, d1, d0 := g / 16, (g / 4) % 4, g % 4;
    var v1 := v * 4 + d2;
    var v2 := v1 * 4 + d1;
    assert v2 * 4 + d0 == v * 64 + g;
    PushDigit(v, n, d2);
    PushDigit(v1, n + 1, d1);
    PushDigit(v2, n + 2, d0);
  }

  /** 2 to the power of twice n, for the shifts that occur. */
  function Shift(n: nat): nat
    requires n <= 3
  {
    if n == 0 then 1 else if n == 1 then 4 else if n == 2 then 16 else 64
  }

  lemma ShiftSteps(v: nat, n: nat)
    requires 0 < n <= 3
    ensures v / 4 / Shift(n - 1) == v / Shift(n)
    ensures (v % Shift(n)) / 4 == (v / 4) % Shift(n - 1) && v % Shift(n) % 4 == v % 4
  {
    if n == 1 {} else if n == 2 {} else {}
  }

  /** Splitting a buffer at a bit position splits its digits. */
  lemma {:induction false} SplitDigits(v: nat, a: nat, n: nat)
    requires n <= 3
    ensures ToDigits(v, a + n) == ToDigits(v / Shift(n), a) + ToDigits(v % Shift(n), n)
  {
    if n > 0 {
      ShiftSteps(v, n);
      SplitDigits(v / 4, a, n - 1);
      assert ToDigits(v, a + n) == ToDigits(v / 4, a + (n - 1)) + [v % 4];
      assert ToDigits(v % Shift(n), n) == ToDigits((v % Shift(n)) / 4, n - 1) + [v % 4];
      ConcatAssoc(ToDigits(v / Shift(n), a), ToDigits((v / 4) % Shift(n - 1), n - 1), [v % 4]);
    }
  }

  lemma ThreeDigits(g: Group)
    ensures ToDigits(g, 3) == GroupDigits(g)
  {
    PushGroup(0, 0, g);
  }

  lemma FourDigits(b: byte)
    ensures ToDigits(b, 4) == ByteDigits(b)
  {
    PushByte(0, 0, b);
  }

  // ---------------------------------------------------------------------------
  // What an encoder emits

  /** The groups that are complete once a payload has been fed, and the digits left over. */
  function Fed(p: Bytes): (r: (seq<Group>, seq<Digit>))
    ensures |r.1| < 3
  {
    if p == [] then ([], [])
    else
      var (gs, rest) := Fed(p[..|p| - 1]);
      FeedDigits(gs, rest + ByteDigits(p[|p| - 1]))
  }

  function FeedDigits(gs: seq<Group>, ds: seq<Digit>): (r: (seq<Group>, seq<Digit>))
    ensures |r.1| < 3
    decreases |ds|
  {
    if |ds| < 3 then (gs, ds) else FeedDigits(gs + [ToGroup(ds)], ds[3..])
  }

  lemma {:induction false} FeedKeepsDigits(gs: seq<Group>, ds: seq<Digit>)
    ensures var r := FeedDigits(gs, ds); DigitsOfGroups(r.0) + r.1 == DigitsOfGroups(gs) + ds
    decreases |ds|
  {
    if |ds| >= 3 {
      GroupInverse(ds);
      FeedKeepsDigits(gs + [ToGroup(ds)], ds[3..]);
      assert ds == ds[..3] + ds[3..];
      assert (gs + [ToGroup(ds)])[..|gs|] == gs;
      ConcatAssoc(DigitsOfGroups(gs), ds[..3], ds[3..]);
    }
  }

  lemma {:induction false} FedKeepsDigits(p: Bytes)
    ensures DigitsOfGroups(Fed(p).0) + Fed(p).1 == Digits(p)
  {
    if p != [] {
      var (gs, rest) := Fed(p[..|p| - 1]);
      FedKeepsDigits(p[..|p| - 1]);
      FeedKeepsDigits(gs, rest + ByteDigits(p[|p| - 1]));
      ConcatAssoc(DigitsOfGroups(gs), rest, ByteDigits(p[|p| - 1]));
    }
  }

  /** One symbol on the wire: a group, the marker that ends a residual, or padding. */
  datatype Sym = G(g: Group) | Mark | Pad(b: byte)

  function Render(l: ByteLayout, syms: seq<Sym>): Bytes
    requires l.Sized()
  {
    if syms == [] then []
    else
      Render(l, syms[..|syms| - 1]) +
      [match syms[|syms| - 1] case G(g) => l.encodeGroup[g] case Mark => l.padMarker case Pad(b) => b]
  }

  /** The symbols without padding. */
  function Strip(syms: seq<Sym>): seq<Sym> {
    if syms == [] then []
    else
      var init := Strip(syms[..|syms| - 1]);
      if syms[|syms| - 1].Pad? then init else init + [syms[|syms| - 1]]
  }

  function AsSyms(gs: seq<Group>): seq<Sym> {
    seq(|gs|, i requires 0 <= i < |gs| => G(gs[i]))
  }

  function Zeros(d: seq<Digit>): seq<Digit>
    requires |d| < 3
  {
    if |d| == 0 then [0, 0, 0] else if |d| == 1 then [d[0], 0, 0] else [d[0], d[1], 0]
  }

  /** All symbols of a whole Write, padding aside: the groups, and for a residual one more group and the marker. */
  function Expected(p: Bytes): seq<Sym> {
    var (gs, rest) := Fed(p);
    if rest == [] then AsSyms(gs) else AsSyms(gs) + [G(ToGroup(Zeros(rest))), Mark]
  }

  ghost predicate PadsFrom(pool: seq<byte>, syms: seq<Sym>) {
    forall i | 0 <= i < |syms| :: syms[i].Pad? ==> syms[i].b in pool
  }

  /** What one Write may send: it starts with padding, pads come from the pool, the rest is determined. */
  ghost predicate Emits(pool: seq<byte>, p: Bytes, syms: seq<Sym>) {
    p != [] && syms != [] && syms[0].Pad? && PadsFrom(pool, syms) && Strip(syms) == Expected(p)
  }

  lemma {:induction false} RenderConcat(l: ByteLayout, a: seq<Sym>, b: seq<Sym>)
    requires l.Sized()
    ensures Render(l, a + b) == Render(l, a) + Render(l, b) && Strip(a + b) == Strip(a) + Strip(b)
    ensures |Render(l, b)| == |b|
    decreases |b|
  {
    if b == [] {
      assert a + b == a;
    } else {
      assert (a + b)[..|a + b| - 1] == a + b[..|b| - 1];
      RenderConcat(l, a, b[..|b| - 1]);
    }
  }

  // ---------------------------------------------------------------------------
  // Decoding one wire byte at a time

  /** Digits pending, and the output so far. */
  datatype Progress = Progress(out: Bytes, pend: seq<Digit>)

  function Take(s: Progress, g: Group): Progress {
    var ds := s.pend + GroupDigits(g);
    if |ds| < 4 then s.(pend := ds) else Progress(s.out + [ToByte(ds)], ds[4..])
  }

  /** One wire byte: a group, the marker, or padding to be skipped. */
  function Step(l: ByteLayout, marker: byte, s: Progress, b: byte): Progress
    requires l.Sized()
  {
    var g := l.decodeGroup[b];
    if g < 64 then Take(s, g) else if b == marker then s.(pend := []) else s
  }

  /** All of a wire. */
  function Run(l: ByteLayout, marker: byte, s: Progress, wire: Bytes): Progress
    requires l.Sized()
  {
    if wire == [] then s else Step(l, marker, Run(l, marker, s, wire[..|wire| - 1]), wire[|wire| - 1])
  }

  /** The result of one decode call: its output, the digits pending after it, and how much of the chunk it took. */
  datatype Decoded = Decoded(out: Bytes, pend: seq<Digit>, consumed: nat)

  function Then(out: Bytes, consumed: nat, r: Decoded): Decoded {
    Decoded(out + r.out, r.pend, consumed + r.consumed)
  }

  lemma ThenThen(a: Bytes, m: nat, b: Bytes, n: nat, r: Decoded)
    ensures Then(a, m, Then(b, n, r)) == Then(a + b, m + n, r)
  {
    ConcatAssoc(a, b, r.out);
  }

  /** One group at a time, until the chunk or the room for output is used up. */
  function Slow(l: ByteLayout, marker: byte, pend: seq<Digit>, chunk: Bytes, size: nat): (r: Decoded)
    requires l.Sized() && |pend| < 4
    ensures r.consumed <= |chunk| && |r.out| <= size && |r.pend| < 4 && (r.consumed < |chunk| ==> |r.out| == size)
    decreases |chunk|
  {
    if chunk == [] || size == 0 then Decoded([], pend, 0)
    else
      StepLocal(l, marker, Progress([], pend), chunk[0]);
      var s := Step(l, marker, Progress([], pend), chunk[0]);
      Then(s.out, 1, Slow(l, marker, s.pend, chunk[1..], size - |s.out|))
  }

  lemma TakeGrows(s: Progress, g: Group)
    requires |s.pend| < 4
    ensures |Take(s, g).pend| < 4
    ensures Take(s, g) == Progress(s.out + Take(Progress([], s.pend), g).out, Take(Progress([], s.pend), g).pend)
  {
    assert s.out + [] == s.out;
  }

  /** What is decoded does not depend on what was decoded before, only on the pending digits. */
  lemma StepLocal(l: ByteLayout, marker: byte, s: Progress, b: byte)
    requires l.Sized() && |s.pend| < 4
    ensures var t := Step(l, marker, Progress([], s.pend), b);
      Step(l, marker, s, b) == Progress(s.out + t.out, t.pend) && |t.pend| < 4 && |t.out| <= 1
  {
    assert s.out + [] == s.out;
    if l.decodeGroup[b] < 64 { TakeGrows(s, l.decodeGroup[b]); }
  }

  lemma {:induction false} RunConcat(l: ByteLayout, marker: byte, s: Progress, a: Bytes, b: Bytes)
    requires l.Sized()
    ensures Run(l, marker, s, a + b) == Run(l, marker, Run(l, marker, s, a), b)
    decreases |b|
  {
    if b == [] {
      assert a + b == a;
    } else {
      assert (a + b)[..|a + b| - 1] == a + b[..|b| - 1];
      RunConcat(l, marker, s, a, b[..|b| - 1]);
    }
  }

  lemma RunOne(l: ByteLayout, marker: byte, s: Progress, wire: Bytes)
    requires l.Sized() && wire != []
    ensures Run(l, marker, s, wire) == Run(l, marker, Step(l, marker, s, wire[0]), wire[1..])
  {
    RunConcat(l, marker, s, [wire[0]], wire[1..]);
    assert [wire[0]] + wire[1..] == wire && [wire[0]][..0] == [];
    assert Run(l, marker, s, [wire[0]]) == Step(l, marker, s, wire[0]);
  }

  // ---------------------------------------------------------------------------
  // The decoder

  /** The three bytes of four groups, as the fast path computes them. */
  function Byte1(g1: Group, g2: Group): byte { g1 * 4 + g2 / 16 }
  function Byte2(g2: Group, g3: Group): byte { (g2 * 16) % 256 + g3 / 4 }
  function Byte3(g3: Group, g4: Group): byte { (g3 * 64) % 256 + g4 }

  function Block(g1: Group, g2: Group, g3: Group, g4: Group): seq<byte> {
    [Byte1(g1, g2), Byte2(g2, g3), Byte3(g3, g4)]
  }

  /** The digits of a group left over after its first one, and after its first two. */
  function Last2(g: Group): seq<Digit> { [(g / 4) % 4, g % 4] }
  function Last1(g: Group): seq<Digit> { [g % 4] }

  lemma FirstOfBlock(g1: Group, g2: Group)
    ensures ByteDigits(Byte1(g1, g2)) == GroupDigits(g1) + [g2 / 16]
  {
    var b := g1 * 4 + g2 / 16;
    assert b / 4 == g1 && b % 4 == g2 / 16;
    assert b / 64 == g1 / 16 && b / 16 == g1 / 4;
  }

  lemma TwoNibbles(x: nat, y: nat)
    requires x < 16 && y < 16
    ensures ByteDigits(x * 16 + y) == [x / 4, x % 4, y / 4, y % 4]
  {
    var b := x * 16 + y;
    assert b / 16 == x && b % 16 == y;
    assert b / 64 == x / 4 && b / 4 == x * 4 + y / 4;
  }

  lemma Nibbles(g: Group)
    ensures (g % 16) / 4 == (g / 4) % 4 && (g % 16) % 4 == g % 4 && g / 4 / 4 == g / 16
  {
    var high, low := g / 16, g % 16;
    assert g == 16 * high + low && g / 4 == 4 * high + low / 4;
  }

  lemma ShiftedNibble(g: Group)
    ensures (g * 16) % 256 == (g % 16) * 16
  {
    var high, low := g / 16, g % 16;
    assert g * 16 == 256 * high + 16 * low;
  }

  lemma SecondOfBlock(g2: Group, g3: Group)
    ensures ByteDigits(Byte2(g2, g3)) == Last2(g2) + [g3 / 16, (g3 / 4) % 4]
  {
    ShiftedNibble(g2);
    TwoNibbles(g2 % 16, g3 / 4);
    Nibbles(g2);
    Nibbles(g3);
  }

  lemma ThirdOfBlock(g3: Group, g4: Group)
    ensures ByteDigits(Byte3(g3, g4)) == Last1(g3) + GroupDigits(g4)
  {
    assert (g3 * 64) % 256 == (g3 % 4) * 64;
    DigitAndGroup(g3 % 4, g4);
  }

  lemma DigitAndGroup(d: Digit, g: Group)
    ensures ByteDigits(d * 64 + g) == [d] + GroupDigits(g)
  {
    var b := d * 64 + g;
    assert b / 64 == d;
    assert b / 16 == d * 4 + g / 16;
    assert b / 4 == d * 16 + g / 4;
  }

  /** The receiving half of PackedConn. */
  class Reader {
    const layout: ByteLayout
    const padMarker: byte
    var readBitBuf: nat
    var readBits: nat

    ghost predicate Valid()
      reads this
    {
      layout.Sized() && readBits in {0, 2, 4, 6} && readBitBuf < Shift(readBits / 2)
    }

    ghost function Pending(): (d: seq<Digit>)
      requires Valid()
      reads this
      ensures |d| < 4
    {
      ToDigits(readBitBuf, readBits / 2)
    }

    constructor (layout: ByteLayout, padMarker: byte)
      requires layout.Sized()
      ensures Valid() && this.layout == layout && this.padMarker == padMarker && Pending() == []
    {
      this.layout, this.padMarker, readBitBuf, readBits := layout, padMarker, 0, 0;
    }

    /** One wire byte in the bit buffer; at most one output byte. */
    method TakeByte(b: byte) returns (some: bool, val: byte)
      requires Valid()
      modifies this
      ensures Valid()
      ensures Progress(if some then [val] else [], Pending())
           == Step(layout, padMarker, Progress([], old(Pending())), b)
    {
      some, val := false, 0;
      var group := layout.decodeGroup[b];
      if group >= 64 {
        if b == padMarker { readBitBuf, readBits := 0, 0; }
        return;
      }
      some, val := TakeGroup(group);
    }

    /** Six more bits; a whole byte leaves at once. */
    method TakeGroup(group: Group) returns (some: bool, val: byte)
      requires Valid()
      modifies this
      ensures Valid()
      ensures Progress(if some then [val] else [], Pending()) == Take(Progress([], old(Pending())), group)
    {
      some, val := false, 0;
      PushGroup(readBitBuf, readBits / 2, group);
      Room(readBitBuf, readBits / 2, group);
      readBitBuf := readBitBuf * 64 + group;
      readBits := readBits + 6;
      if readBits >= 8 {
        some := true;
        val := Shed();
        ByteInverse(val);
        assert (ByteDigits(val) + Pending())[4..] == Pending();
      }
    }

    /** The top eight bits leave the buffer. */
    method Shed() returns (val: byte)
      requires layout.Sized() && readBits in {8, 10, 12} && readBitBuf < 256 * Shift((readBits - 8) / 2)
      modifies this
      ensures Valid() && ToDigits(old(readBitBuf), old(readBits) / 2) == ByteDigits(val) + Pending()
    {
      ghost var m := (readBits - 8) / 2;
      assert readBits / 2 == m + 4;
      ExtractByte(readBitBuf, m);
      readBits := readBits - 8;
      val, readBitBuf := readBitBuf / Shift(readBits / 2), readBitBuf % Shift(readBits / 2);
    }

    /**
     The decode loop with its fast path of four groups at once: for any decode
     table, any cut of the wire and any destination size it does exactly what the
     one-group-at-a-time decoder does.
     */
    method Decode(p: array<byte>, chunk: Bytes) returns (outN: nat, consumed: nat)
      requires Valid()
      modifies this, p
      ensures Valid() && outN <= p.Length
      ensures Decoded(p[..outN], Pending(), consumed) == Slow(layout, padMarker, old(Pending()), chunk, p.Length)
      ensures forall k | outN <= k < p.Length :: p[k] == old(p[k])
    {
      outN, consumed := 0, 0;
      ghost var goal := Slow(layout, padMarker, Pending(), chunk, p.Length);
      assert chunk[0..] == chunk;
      while consumed < |chunk| && outN < p.Length
        invariant Valid() && outN <= p.Length && consumed <= |chunk|
        invariant OnTrack(p, outN, consumed, chunk[consumed..], goal)
        invariant forall k | outN <= k < p.Length :: p[k] == old(p[k])
        decreases |chunk| - consumed
      {
        var i := consumed;
        ghost var rest := chunk[i..];
        if readBits == 0 && outN + 3 <= p.Length && i + 3 < |chunk| && FourGroups(chunk, i) {
          assert rest[..4] == chunk[i..i + 4] && rest[4..] == chunk[i + 4..];
          outN := TakeBlock(p, outN, chunk[i..i + 4], rest, i, goal);
          consumed := consumed + 4;
        } else {
          assert rest[1..] == chunk[i + 1..];
          outN := TakeOne(p, outN, chunk[i], rest, i, goal);
          consumed := consumed + 1;
        }
      }
    }

    /** In the source one comparison of the four lookups or-ed together: all are below 64 or none of this applies. */
    predicate FourGroups(chunk: Bytes, i: nat)
      requires layout.Sized() && i + 3 < |chunk|
    {
      && layout.decodeGroup[chunk[i]] < 64 && layout.decodeGroup[chunk[i + 1]] < 64
      && layout.decodeGroup[chunk[i + 2]] < 64 && layout.decodeGroup[chunk[i + 3]] < 64
    }

    /** What is done and what is still to be done make up the goal. */
    ghost predicate OnTrack(p: array<byte>, outN: nat, consumed: nat, rest: Bytes, goal: Decoded)
      requires Valid() && outN <= p.Length
      reads this, p
    {
      goal == Then(p[..outN], consumed, Slow(layout, padMarker, Pending(), rest, p.Length - outN))
    }

    /** The shifts of the fast path; what a byte cannot hold is shifted out. */
    static method FourToThree(g1: Group, g2: Group, g3: Group, g4: Group) returns (b1: byte, b2: byte, b3: byte)
      ensures [b1, b2, b3] == Block(g1, g2, g3, g4)
    {
      b1 := g1 * 4 + g2 / 16;
      b2 := (g2 * 16) % 256 + g3 / 4;
      b3 := (g3 * 64) % 256 + g4;
    }

    method TakeBlock(p: array<byte>, outN: nat, four: Bytes, ghost rest: Bytes, ghost i: nat, ghost goal: Decoded)
      returns (n: nat)
      requires Valid() && readBits == 0 && outN + 3 <= p.Length && |rest| >= 4 && rest[..4] == four
      requires forall k | 0 <= k < 4 :: layout.decodeGroup[rest[k]] < 64
      requires OnTrack(p, outN, i, rest, goal)
      modifies p
      ensures outN <= n <= p.Length && Valid() && OnTrack(p, n, i + 4, rest[4..], goal)
      ensures forall k | n <= k < p.Length :: p[k] == old(p[k])
    {
      var g1: int, g2: int := layout.decodeGroup[four[0]], layout.decodeGroup[four[1]];
      var g3: int, g4: int := layout.decodeGroup[four[2]], layout.decodeGroup[four[3]];
      var b1, b2, b3 := FourToThree(g1, g2, g3, g4);
      p[outN], p[outN + 1], p[outN + 2] := b1, b2, b3;
      n := outN + 3;
      assert p[..n] == old(p[..outN]) + Block(g1, g2, g3, g4);
      BlockOnTrack(layout, padMarker, old(p[..outN]), i, rest, p.Length - outN, goal);
    }

    method TakeOne(p: array<byte>, outN: nat, b: byte, ghost rest: Bytes, ghost i: nat, ghost goal: Decoded)
      returns (n: nat)
      requires Valid() && outN < p.Length && rest != [] && rest[0] == b && OnTrack(p, outN, i, rest, goal)
      modifies this, p
      ensures outN <= n <= p.Length && Valid() && OnTrack(p, n, i + 1, rest[1..], goal)
      ensures forall k | n <= k < p.Length :: p[k] == old(p[k])
    {
      ghost var done, pend := p[..outN], Pending();
      ghost var out;
      n, out := TakeInto(p, outN, b);
      StayOnTrack(layout, padMarker, done, i, pend, rest, p.Length - outN, Progress(out, Pending()), goal);
    }

    /** The byte that comes out, if one does, goes into the destination. */
    method TakeInto(p: array<byte>, outN: nat, b: byte) returns (n: nat, ghost out: Bytes)
      requires Valid() && outN < p.Length
      modifies this, p
      ensures Valid() && Progress(out, Pending()) == Step(layout, padMarker, Progress([], old(Pending())), b)
      ensures |out| <= 1 && n == outN + |out| && p[..n] == old(p[..outN]) + out
      ensures forall k | n <= k < p.Length :: p[k] == old(p[k])
    {
      var some, val := TakeByte(b);
      n, out := outN, [];
      if some {
        p[outN] := val;
        n, out := outN + 1, [val];
      }
    }
  }

  lemma SlowOne(l: ByteLayout, marker: byte, pend: seq<Digit>, rest: Bytes, size: nat, s: Progress)
    requires l.Sized() && |pend| < 4 && rest != [] && size > 0 && s == Step(l, marker, Progress([], pend), rest[0])
    requires |s.pend| < 4 && |s.out| <= 1
    ensures Slow(l, marker, pend, rest, size) == Then(s.out, 1, Slow(l, marker, s.pend, rest[1..], size - |s.out|))
  {
  }

  lemma BlockOnTrack(l: ByteLayout, marker: byte, done: Bytes, i: nat, rest: Bytes, size: nat, goal: Decoded)
    requires l.Sized() && |rest| >= 4 && size >= 3 && forall k | 0 <= k < 4 :: l.decodeGroup[rest[k]] < 64
    requires goal == Then(done, i, Slow(l, marker, [], rest, size))
    ensures var block := Block(l.decodeGroup[rest[0]], l.decodeGroup[rest[1]], l.decodeGroup[rest[2]], l.decodeGroup[rest[3]]);
      goal == Then(done + block, i + 4, Slow(l, marker, [], rest[4..], size - 3))
  {
    var block := Block(l.decodeGroup[rest[0]], l.decodeGroup[rest[1]], l.decodeGroup[rest[2]], l.decodeGroup[rest[3]]);
    FourSlow(l, marker, rest, size);
    ThenThen(done, i, block, 4, Slow(l, marker, [], rest[4..], size - 3));
  }

  lemma StayOnTrack(l: ByteLayout, marker: byte, done: Bytes, i: nat, pend: seq<Digit>, rest: Bytes, size: nat, s: Progress, goal: Decoded)
    requires l.Sized() && |pend| < 4 && rest != [] && size > 0 && s == Step(l, marker, Progress([], pend), rest[0])
    requires |s.pend| < 4 && |s.out| <= 1 && goal == Then(done, i, Slow(l, marker, pend, rest, size))
    ensures goal == Then(done + s.out, i + 1, Slow(l, marker, s.pend, rest[1..], size - |s.out|))
  {
    SlowOne(l, marker, pend, rest, size, s);
    ThenThen(done, i, s.out, 1, Slow(l, marker, s.pend, rest[1..], size - |s.out|));
  }

  /** Four group bytes with nothing pending are one block for the one-at-a-time decoder too. */
  lemma FourSlow(l: ByteLayout, marker: byte, rest: Bytes, size: nat)
    requires l.Sized() && |rest| >= 4 && size >= 3 && forall k | 0 <= k < 4 :: l.decodeGroup[rest[k]] < 64
    ensures var block := Block(l.decodeGroup[rest[0]], l.decodeGroup[rest[1]], l.decodeGroup[rest[2]], l.decodeGroup[rest[3]]);
      Slow(l, marker, [], rest, size) == Then(block, 4, Slow(l, marker, [], rest[4..], size - 3))
  {
    var g1, g2, g3, g4 := l.decodeGroup[rest[0]], l.decodeGroup[rest[1]], l.decodeGroup[rest[2]], l.decodeGroup[rest[3]];
    var r2 := rest[2..];
    assert r2[2..] == rest[4..];
    var b := Block(g1, g2, g3, g4);
    FirstSlow(l, marker, rest, size, g1, g2);
    SecondSlow(l, marker, r2, size - 1, g2, g3, g4);
    var end := Slow(l, marker, [], rest[4..], size - 3);
    assert Slow(l, marker, [], rest, size) == Then([], 1, Then([b[0]], 1, Then([b[1]], 1, Then([b[2]], 1, end))));
    Join(b, end);
  }

  lemma FirstSlow(l: ByteLayout, marker: byte, rest: Bytes, size: nat, g1: Group, g2: Group)
    requires l.Sized() && |rest| >= 2 && size >= 1 && l.decodeGroup[rest[0]] == g1 && l.decodeGroup[rest[1]] == g2
    ensures Slow(l, marker, [], rest, size) ==
      Then([], 1, Then([Byte1(g1, g2)], 1, Slow(l, marker, Last2(g2), rest[2..], size - 1)))
  {
    FirstTake(g1, g2);
    assert rest[1..][1..] == rest[2..];
    SlowGroup(l, marker, [], rest, size, Progress([], GroupDigits(g1)));
    SlowGroup(l, marker, GroupDigits(g1), rest[1..], size, Progress([Byte1(g1, g2)], Last2(g2)));
  }

  lemma SecondSlow(l: ByteLayout, marker: byte, rest: Bytes, size: nat, g2: Group, g3: Group, g4: Group)
    requires l.Sized() && |rest| >= 2 && size >= 2 && l.decodeGroup[rest[0]] == g3 && l.decodeGroup[rest[1]] == g4
    ensures Slow(l, marker, Last2(g2), rest, size) ==
      Then([Byte2(g2, g3)], 1, Then([Byte3(g3, g4)], 1, Slow(l, marker, [], rest[2..], size - 2)))
  {
    SecondTake(g2, g3);
    ThirdTake(g3, g4);
    assert rest[1..][1..] == rest[2..];
    SlowGroup(l, marker, Last2(g2), rest, size, Progress([Byte2(g2, g3)], Last1(g3)));
    SlowGroup(l, marker, Last1(g3), rest[1..], size - 1, Progress([Byte3(g3, g4)], []));
  }

  lemma Join(b: Bytes, end: Decoded)
    requires |b| == 3
    ensures Then([], 1, Then([b[0]], 1, Then([b[1]], 1, Then([b[2]], 1, end)))) == Then(b, 4, end)
  {
    ThenThen([b[1]], 1, [b[2]], 1, end);
    ThenThen([b[0]], 1, [b[1]] + [b[2]], 2, end);
    ThenThen([], 1, [b[0]] + ([b[1]] + [b[2]]), 3, end);
    assert [] + ([b[0]] + ([b[1]] + [b[2]])) == b;
  }

  lemma SlowGroup(l: ByteLayout, marker: byte, pend: seq<Digit>, rest: Bytes, size: nat, s: Progress)
    requires l.Sized() && |pend| < 4 && rest != [] && size > 0 && l.decodeGroup[rest[0]] < 64
    requires s == Take(Progress([], pend), l.decodeGroup[rest[0]]) && |s.pend| < 4 && |s.out| <= 1
    ensures Slow(l, marker, pend, rest, size) == Then(s.out, 1, Slow(l, marker, s.pend, rest[1..], size - |s.out|))
  {
  }

  lemma FirstTake(g1: Group, g2: Group)
    ensures Take(Progress([], []), g1) == Progress([], GroupDigits(g1))
    ensures Take(Progress([], GroupDigits(g1)), g2) == Progress([Byte1(g1, g2)], Last2(g2))
  {
    FirstOfBlock(g1, g2);
    ByteInverse(Byte1(g1, g2));
    assert GroupDigits(g1) + GroupDigits(g2) == (GroupDigits(g1) + [g2 / 16]) + Last2(g2);
  }

  lemma SecondTake(g2: Group, g3: Group)
    ensures Take(Progress([], Last2(g2)), g3) == Progress([Byte2(g2, g3)], Last1(g3))
  {
    SecondOfBlock(g2, g3);
    ByteInverse(Byte2(g2, g3));
    assert Last2(g2) + GroupDigits(g3) == (Last2(g2) + [g3 / 16, (g3 / 4) % 4]) + Last1(g3);
  }

  lemma ThirdTake(g3: Group, g4: Group)
    ensures Take(Progress([], Last1(g3)), g4) == Progress([Byte3(g3, g4)], [])
  {
    ThirdOfBlock(g3, g4);
    ByteInverse(Byte3(g3, g4));
  }

  /** A call decodes exactly the bytes it takes. */
  lemma {:induction false} SlowIsRun(l: ByteLayout, marker: byte, pend: seq<Digit>, chunk: Bytes, size: nat)
    requires l.Sized() && |pend| < 4
    ensures DecodesTaken(l, marker, pend, chunk, Slow(l, marker, pend, chunk, size))
    decreases |chunk|
  {
    if chunk != [] && size > 0 {
      StepLocal(l, marker, Progress([], pend), chunk[0]);
      var s := Step(l, marker, Progress([], pend), chunk[0]);
      SlowOne(l, marker, pend, chunk, size, s);
      SlowIsRun(l, marker, s.pend, chunk[1..], size - |s.out|);
      RunFirst(l, marker, pend, chunk, Slow(l, marker, s.pend, chunk[1..], size - |s.out|));
    } else {
      assert chunk[..0] == [];
    }
  }

  predicate DecodesTaken(l: ByteLayout, marker: byte, pend: seq<Digit>, chunk: Bytes, r: Decoded)
    requires l.Sized() && |pend| < 4
  {
    r.consumed <= |chunk| && Run(l, marker, Progress([], pend), chunk[..r.consumed]) == Progress(r.out, r.pend)
  }

  lemma RunFirst(l: ByteLayout, marker: byte, pend: seq<Digit>, chunk: Bytes, r: Decoded)
    requires l.Sized() && |pend| < 4 && chunk != [] && |Step(l, marker, Progress([], pend), chunk[0]).pend| < 4
    requires DecodesTaken(l, marker, Step(l, marker, Progress([], pend), chunk[0]).pend, chunk[1..], r)
    ensures var s := Step(l, marker, Progress([], pend), chunk[0]);
      DecodesTaken(l, marker, pend, chunk, Then(s.out, 1, r))
  {
    var s, n := Step(l, marker, Progress([], pend), chunk[0]), r.consumed;
    StepLocal(l, marker, Progress([], pend), chunk[0]);
    RunOne(l, marker, Progress([], pend), chunk[..n + 1]);
    assert chunk[..n + 1][1..] == chunk[1..][..n];
    RunShift(l, marker, s, chunk[1..][..n]);
    assert Then(s.out, 1, r).consumed == n + 1;
  }

  lemma {:induction false} RunShift(l: ByteLayout, marker: byte, s: Progress, wire: Bytes)
    requires l.Sized() && |s.pend| < 4
    ensures var r := Run(l, marker, Progress([], s.pend), wire);
      Run(l, marker, s, wire) == Progress(s.out + r.out, r.pend) && |r.pend| < 4
  {
    if wire == [] {
      assert s.out + [] == s.out;
    } else {
      var init, b := wire[..|wire| - 1], wire[|wire| - 1];
      RunShift(l, marker, s, init);
      var r := Run(l, marker, Progress([], s.pend), init);
      StepLocal(l, marker, r, b);
      StepLocal(l, marker, Progress(s.out + r.out, r.pend), b);
      ConcatAssoc(s.out, r.out, Step(l, marker, Progress([], r.pend), b).out);
    }
  }

  lemma Room(v: nat, n: nat, g: Group)
    requires n <= 3 && v < Shift(n)
    ensures n > 0 ==> v * 64 + g < 256 * Shift(n - 1)
    ensures n == 0 ==> v * 64 + g < 64
  {
    if n == 0 {} else if n == 1 {} else if n == 2 {} else {}
  }

  lemma ExtractByte(v: nat, m: nat)
    requires m <= 2 && v < 256 * Shift(m)
    ensures v / Shift(m) < 256 && v % Shift(m) < Shift(m)
    ensures ToDigits(v, m + 4) == ByteDigits(v / Shift(m)) + ToDigits(v % Shift(m), m)
  {
    if m == 0 {} else if m == 1 {} else {}
    SplitDigits(v, 4, m);
    FourDigits(v / Shift(m));
  }
}
