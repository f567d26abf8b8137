/**
 The packed round trip. The decoder tells padding from groups by
 decodeGroup >= 64; decoding inverts encoding exactly for the layouts whose
 table says so, and none of the shipped ones does.
 */
module PackedTheorems {
  import opened Common
  import opened Layout
  import opened Packed
  import opened PackedEncoder
  import opened PackedWriter
  import Classic

  /** The marker and every pad look like neither a group nor, for pads, the marker. */
  ghost predicate Sentinel(l: ByteLayout)
    requires l.Sized()
  {
    l.decodeGroup[l.padMarker] >= 64 && forall b <- PadPool(l) :: l.decodeGroup[b] >= 64 && b != l.padMarker
  }

  // ---------------------------------------------------------------------------
  // Decoding symbols instead of bytes

  function StepSym(s: Progress, sym: Sym): Progress {
    match sym
    case G(g) => Take(s, g)
    case Mark => s.(pend := [])
    case Pad(_) => s
  }

  function RunSyms(s: Progress, syms: seq<Sym>): Progress {
    if syms == [] then s else StepSym(RunSyms(s, syms[..|syms| - 1]), syms[|syms| - 1])
  }

  lemma {:induction false} RunRender(l: ByteLayout, s: Progress, syms: seq<Sym>)
    requires l.GroupsOk() && Sentinel(l) && PadsFrom(PadPool(l), syms)
    ensures Run(l, l.padMarker, s, Render(l, syms)) == RunSyms(s, Strip(syms))
  {
    if syms != [] {
      var init, last := syms[..|syms| - 1], syms[|syms| - 1];
      RunRender(l, s, init);
      var wire := Render(l, syms);
      assert wire[..|wire| - 1] == Render(l, init);
      assert syms[|syms| - 1] == last;
      if !last.Pad? { assert (Strip(init) + [last])[..|Strip(init)|] == Strip(init); }
    }
  }

  lemma TakeKeepsDigits(s: Progress, g: Group)
    requires |s.pend| < 4
    ensures |Take(s, g).pend| < 4
    ensures Digits(Take(s, g).out) + Take(s, g).pend == Digits(s.out) + s.pend + GroupDigits(g)
  {
    var ds := s.pend + GroupDigits(g);
    ConcatAssoc(Digits(s.out), s.pend, GroupDigits(g));
    if |ds| >= 4 {
      BytesOfDigits(ds);
      assert (s.out + [ToByte(ds)])[..|s.out|] == s.out;
      ConcatAssoc(Digits(s.out), ds[..4], ds[4..]);
      assert ds == ds[..4] + ds[4..];
    }
  }

  /** Groups carry their digits through the decoder. */
  lemma {:induction false} RunGroups(s: Progress, gs: seq<Group>)
    requires |s.pend| < 4
    ensures var r := RunSyms(s, AsSyms(gs)); |r.pend| < 4 && Digits(r.out) + r.pend == Digits(s.out) + s.pend + DigitsOfGroups(gs)
  {
    if gs == [] {
      assert Digits(s.out) + s.pend + [] == Digits(s.out) + s.pend;
    } else {
      var init, g := gs[..|gs| - 1], gs[|gs| - 1];
      RunGroups(s, init);
      AsSymsSnoc(init, g);
      assert init + [g] == gs;
      assert (AsSyms(init) + [G(g)])[..|init|] == AsSyms(init);
      TakeKeepsDigits(RunSyms(s, AsSyms(init)), g);
      ConcatAssoc(Digits(s.out) + s.pend, DigitsOfGroups(init), GroupDigits(g));
    }
  }

  lemma DigitsLength(p: Bytes)
    ensures |Digits(p)| == 4 * |p|
  {
    DigitsConcat([], p);
  }

  /** Digits determine bytes and the remainder. */
  lemma {:induction false} DigitsUnique(a: Bytes, x: seq<Digit>, b: Bytes, y: seq<Digit>)
    requires |x| < 4 && |y| < 4 && Digits(a) + x == Digits(b) + y
    ensures a == b && x == y
  {
    DigitsLength(a);
    DigitsLength(b);
    assert |a| == |b|;
    assert Digits(a) == (Digits(a) + x)[..4 * |a|] && x == (Digits(a) + x)[4 * |a|..];
    assert Digits(b) == (Digits(b) + y)[..4 * |a|] && y == (Digits(b) + y)[4 * |a|..];
    DigitsInjective(a, b);
  }

  lemma {:induction false} DigitsInjective(a: Bytes, b: Bytes)
    requires |a| == |b| && Digits(a) == Digits(b)
    ensures a == b
  {
    if a != [] {
      var n := |a| - 1;
      DigitsLength(a[..n]);
      DigitsLength(b[..n]);
      assert Digits(a)[..4 * n] == Digits(a[..n]) && Digits(b)[..4 * n] == Digits(b[..n]);
      assert Digits(a)[4 * n..] == ByteDigits(a[n]) && Digits(b)[4 * n..] == ByteDigits(b[n]);
      DigitsInjective(a[..n], b[..n]);
      ByteInverse(a[n]);
      ByteInverse(b[n]);
      assert a == a[..n] + [a[n]] && b == b[..n] + [b[n]];
    }
  }

  /** The symbols of a whole Write give its payload and leave nothing pending. */
  lemma ExpectedDecodes(p: Bytes)
    ensures RunSyms(Progress([], []), Expected(p)) == Progress(p, [])
  {
    var start := Progress([], []);
    var (gs, rest) := Fed(p);
    RunGroups(start, gs);
    FedKeepsDigits(p);
    var r := RunSyms(start, AsSyms(gs));
    assert Digits([]) + [] + DigitsOfGroups(gs) == DigitsOfGroups(gs);
    if rest == [] {
      assert DigitsOfGroups(gs) + [] == DigitsOfGroups(gs) && Digits(p) + [] == Digits(p);
      DigitsUnique(r.out, r.pend, p, []);
    } else {
      ResidualDecodes(p, gs, rest, r);
      RunTwo(start, AsSyms(gs), G(ToGroup(Zeros(rest))), Mark);
    }
  }

  lemma RunTwo(s: Progress, syms: seq<Sym>, x: Sym, y: Sym)
    ensures RunSyms(s, syms + [x, y]) == StepSym(StepSym(RunSyms(s, syms), x), y)
  {
    var e := syms + [x, y];
    assert e[..|e| - 1] == syms + [x] && (syms + [x])[..|syms|] == syms;
  }

  lemma FillUp(rest: seq<Digit>) returns (z: seq<Digit>)
    requires 0 < |rest| < 3
    ensures Zeros(rest) == rest + z && |z| < 3
  {
    z := if |rest| == 1 then [0, 0] else [0];
  }

  lemma ResidualDecodes(p: Bytes, gs: seq<Group>, rest: seq<Digit>, r: Progress)
    requires 0 < |rest| < 3 && |r.pend| < 4 && Digits(r.out) + r.pend == DigitsOfGroups(gs)
    requires DigitsOfGroups(gs) + rest == Digits(p)
    ensures Take(r, ToGroup(Zeros(rest))).out == p
  {
    var z := FillUp(rest);
    GroupInverse(Zeros(rest));
    TakeKeepsDigits(r, ToGroup(Zeros(rest)));
    ConcatAssoc(DigitsOfGroups(gs), rest, z);
    var t := Take(r, ToGroup(Zeros(rest)));
    assert Zeros(rest)[..3] == Zeros(rest);
    DigitsUnique(t.out, t.pend, p, z);
  }

  /** One Write, from any point where nothing is pending. */
  lemma WriteDecodes(l: ByteLayout, done: Bytes, p: Bytes, syms: seq<Sym>)
    requires l.GroupsOk() && Sentinel(l) && Emits(PadPool(l), p, syms)
    ensures Run(l, l.padMarker, Progress(done, []), Render(l, syms)) == Progress(done + p, [])
  {
    RunRender(l, Progress([], []), syms);
    ExpectedDecodes(p);
    RunShift(l, l.padMarker, Progress(done, []), Render(l, syms));
  }

  // ---------------------------------------------------------------------------
  // Any number of Writes, read in any pieces

  /** A sequence of Writes: the payloads and what each one emitted. */
  datatype Sent = Sent(p: Bytes, syms: seq<Sym>)

  ghost predicate AllEmitted(l: ByteLayout, ws: seq<Sent>) {
    forall i | 0 <= i < |ws| :: Emits(PadPool(l), ws[i].p, ws[i].syms)
  }

  function Payload(ws: seq<Sent>): Bytes {
    if ws == [] then [] else Payload(ws[..|ws| - 1]) + ws[|ws| - 1].p
  }

  function WireOf(l: ByteLayout, ws: seq<Sent>): Bytes
    requires l.Sized()
  {
    if ws == [] then [] else WireOf(l, ws[..|ws| - 1]) + Render(l, ws[|ws| - 1].syms)
  }

  lemma {:induction false} WritesDecode(l: ByteLayout, ws: seq<Sent>)
    requires l.GroupsOk() && Sentinel(l) && AllEmitted(l, ws)
    ensures Run(l, l.padMarker, Progress([], []), WireOf(l, ws)) == Progress(Payload(ws), [])
  {
    if ws != [] {
      var init, last := ws[..|ws| - 1], ws[|ws| - 1];
      WritesDecode(l, init);
      RunConcat(l, l.padMarker, Progress([], []), WireOf(l, init), Render(l, last.syms));
      WriteDecodes(l, Payload(init), last.p, last.syms);
    }
  }

  /** A reader's calls: how much of the wire each one sees and how much space it offers. */
  datatype Call = Call(chunk: nat, size: nat)

  /** The output of a sequence of decode calls, the pending digits, and the wire not yet taken. */
  function ReadAll(l: ByteLayout, pend: seq<Digit>, wire: Bytes, calls: seq<Call>): (r: (Bytes, seq<Digit>, Bytes))
    requires l.Sized() && |pend| < 4
    ensures |r.1| < 4
    decreases |calls|
  {
    if calls == [] then ([], pend, wire)
    else
      var r := Slow(l, l.padMarker, pend, wire[..Min(calls[0].chunk, |wire|)], calls[0].size);
      var (out, pend', rest) := ReadAll(l, r.pend, wire[r.consumed..], calls[1..]);
      (r.out + out, pend', rest)
  }

  /** Calls of any sizes decode what one long run over the same bytes decodes. */
  lemma {:induction false} ReadAllIsRun(l: ByteLayout, pend: seq<Digit>, wire: Bytes, calls: seq<Call>)
    requires l.Sized() && |pend| < 4
    ensures var (out, pend', rest) := ReadAll(l, pend, wire, calls);
      var r := Run(l, l.padMarker, Progress([], pend'), rest);
      Run(l, l.padMarker, Progress([], pend), wire) == Progress(out + r.out, r.pend)
    decreases |calls|
  {
    var whole := Run(l, l.padMarker, Progress([], pend), wire);
    if calls == [] {
      assert [] + whole.out == whole.out;
    } else {
      var c := wire[..Min(calls[0].chunk, |wire|)];
      var s := Slow(l, l.padMarker, pend, c, calls[0].size);
      SlowIsRun(l, l.padMarker, pend, c, calls[0].size);
      var first, tail := wire[..s.consumed], wire[s.consumed..];
      assert c[..s.consumed] == first && first + tail == wire;
      RunConcat(l, l.padMarker, Progress([], pend), first, tail);
      RunShift(l, l.padMarker, Progress(s.out, s.pend), tail);
      ReadAllIsRun(l, s.pend, tail, calls[1..]);
      var (out, pend', rest) := ReadAll(l, s.pend, tail, calls[1..]);
      ConcatAssoc(s.out, out, Run(l, l.padMarker, Progress([], pend'), rest).out);
    }
  }

  /**
   Round trip: any Writes with any padding, cut into any chunks and read into
   buffers of any sizes: always a prefix of the payloads, all of it at the end.
   */
  lemma DecodeInvertsEncode(l: ByteLayout, ws: seq<Sent>, calls: seq<Call>)
    requires l.GroupsOk() && Sentinel(l) && AllEmitted(l, ws)
    ensures var (out, pend, rest) := ReadAll(l, [], WireOf(l, ws), calls);
      out <= Payload(ws) && (rest == [] ==> out == Payload(ws) && pend == [])
  {
    var (out, pend, rest) := ReadAll(l, [], WireOf(l, ws), calls);
    ReadAllIsRun(l, [], WireOf(l, ws), calls);
    WritesDecode(l, ws);
  }

  // ---------------------------------------------------------------------------
  // The sentinel is needed

  /** What the decoder makes of the symbols so far. */
  function Seen(l: ByteLayout, d: Draft): Progress
    requires l.Sized()
  {
    Run(l, l.padMarker, Progress([], []), Render(l, d.syms))
  }

  function WireByte(l: ByteLayout, s: Sym): byte
    requires l.Sized()
  {
    match s case G(g) => l.encodeGroup[g] case Mark => l.padMarker case Pad(b) => b
  }

  lemma SeenPut(l: ByteLayout, d: Draft, s: Sym, pos: nat)
    requires l.Sized()
    ensures Seen(l, Draft(d.syms + [s], pos)) == Step(l, l.padMarker, Seen(l, d), WireByte(l, s))
  {
    RenderSnoc(l, d.syms, s);
    var wire := Render(l, d.syms + [s]);
    assert wire[..|wire| - 1] == Render(l, d.syms);
  }

  function StepOn(l: ByteLayout, s: Progress, b: byte): Progress
    requires l.Sized()
  {
    Step(l, l.padMarker, s, b)
  }

  /** The same wire byte n times. */
  function Steps(l: ByteLayout, s: Progress, b: byte, n: nat): Progress
    requires l.Sized()
  {
    if n == 0 then s else StepOn(l, Steps(l, s, b, n - 1), b)
  }

  /** A tape of one draw, which picks pad b every time. */
  ghost predicate Picks(c: Coder, b: byte) {
    |c.tape| == 1 && c.pool != [] && c.pool[Classic.Scaled(c.tape[0], |c.pool|)] == b
  }

  lemma ForcedSeen(l: ByteLayout, c: Coder, b: byte, d: Draft)
    requires l.Sized() && Picks(c, b)
    ensures Seen(l, AddForced(c, d)) == StepOn(l, Seen(l, d), b)
  {
    SeenPut(l, d, Pad(b), AddForced(c, d).pos);
  }

  lemma ChanceSeen(l: ByteLayout, c: Coder, b: byte, d: Draft) returns (n: nat)
    requires l.Sized() && Picks(c, b)
    ensures Seen(l, AddChance(c, d)) == Steps(l, Seen(l, d), b, n)
  {
    n := 0;
    if c.threshold > 0 && c.tape[0] < c.threshold {
      SeenPut(l, d, Pad(b), AddChance(c, d).pos);
      n := 1;
      assert Steps(l, Seen(l, d), b, 0) == Seen(l, d);
    }
  }

  lemma {:induction false} StepsAdd(l: ByteLayout, s: Progress, b: byte, m: nat, n: nat)
    requires l.Sized()
    ensures Steps(l, Steps(l, s, b, m), b, n) == Steps(l, s, b, m + n)
    decreases n
  {
    if n > 0 { StepsAdd(l, s, b, m, n - 1); }
  }

  lemma GroupSeen(l: ByteLayout, c: Coder, b: byte, g: Group, d: Draft) returns (n: nat)
    requires l.Sized() && Picks(c, b)
    ensures Seen(l, AddGroup(c, g, d)) == StepOn(l, Steps(l, Seen(l, d), b, n), l.encodeGroup[g])
  {
    n := ChanceSeen(l, c, b, d);
    SeenPut(l, AddChance(c, d), G(g), AddChance(c, d).pos);
  }

  lemma OpeningSeen(l: ByteLayout, c: Coder, b: byte) returns (n: nat)
    requires l.Sized() && Picks(c, b)
    ensures n >= 1 && Seen(l, Opening(c, 0)) == Steps(l, Progress([], []), b, n)
  {
    var start := Draft([], 1);
    var one := AddForced(c, start);
    ForcedSeen(l, c, b, start);
    ForcedSeen(l, c, b, Draft(one.syms, one.pos + 1));
    assert Seen(l, start) == Steps(l, Progress([], []), b, 0);
    assert Steps(l, Progress([], []), b, 1) == StepOn(l, Steps(l, Progress([], []), b, 0), b);
    n := if Classic.Scaled(Classic.Drawn(c.tape, one.pos), 2) == 0 then 1 else 2;
  }

  /** The single byte 0 fills one group and leaves one digit. */
  lemma FedZero(p: Bytes)
    requires p == [0]
    ensures Fed(p[..0]).1 == [] && Fed(p).1 == [0] && Fed(p[..1]).1 == [0]
  {
    var b, d: Digit := p[0], p[0] % 4;
    assert p[..0] == [] && p == [b] && p[..1] == p;
    OneByteFed(b, b / 4, d);
  }

  lemma OneByteFed(b: byte, g: Group, d: Digit)
    requires b / 4 == g && b % 4 == d
    ensures Fed([b]) == ([g], [d])
  {
    var none: seq<Group> := [];
    assert [b][..0] == [] && Fed([]) == ([], []) && [b][|[b]| - 1] == b;
    Group0(b);
    FeedOne(none, [] + ByteDigits(b), g, [d]);
    assert none + [g] == [g];
  }

  /** The draft behind the protected prefix of the byte 0. */
  function ZeroHead(c: Coder): Draft
    requires c.pool != []
  {
    var o := Opening(c, 0);
    Behind(c, AddGroup(c, 0, Draft(o.syms, o.pos + 1)), Gap(c, o.pos))
  }

  /** With a gap of one, a pad and the draw of the next gap follow. */
  function Behind(c: Coder, e: Draft, gap: nat): Draft
    requires c.pool != []
  {
    if gap > 1 then e
    else
      var f := AddForced(c, e);
      Draft(f.syms, f.pos + 1)
  }

  lemma PlainOfZero(c: Coder, p: Bytes)
    requires c.pool != [] && p == [0]
    ensures Plain(c, p, 0) == AddChance(c, Put(AddGroup(c, 0, ZeroHead(c)), Mark))
  {
    FedZero(p);
    PrefixOfZero(c, p);
    assert AddAligned(c, p, 1, ZeroHead(c)) == (ZeroHead(c), 1);
    assert AddRange(c, p, 1, 1, ZeroHead(c)) == ZeroHead(c);
    assert ToGroup(Zeros([0])) == 0;
  }

  lemma PrefixOfZero(c: Coder, p: Bytes)
    requires c.pool != [] && p == [0]
    ensures Prefix(c, p, 0) == ZeroHead(c)
  {
    var o := Opening(c, 0);
    var d, gap := Draft(o.syms, o.pos + 1), Gap(c, o.pos);
    FedZero(p);
    FirstOfThree(c, p, 0, d);
    var e := AddGroup(c, 0, d);
    assert AddByte(c, p, 0, d) == e;
    if gap > 1 {
      assert AddPrefix(c, p, 1, 1, gap, e) == e;
    } else {
      var f := AddForced(c, e);
      assert AddPrefix(c, p, 1, 0, Gap(c, f.pos), Draft(f.syms, f.pos + 1)) == Draft(f.syms, f.pos + 1);
    }
  }

  /** The last group of the byte 0, the marker, and the pads about them. */
  lemma TailSeen(l: ByteLayout, c: Coder, b: byte, head: Draft) returns (y: nat, z: nat)
    requires l.Sized() && Picks(c, b)
    ensures Seen(l, AddChance(c, Put(AddGroup(c, 0, head), Mark)))
         == Steps(l, StepOn(l, StepOn(l, Steps(l, Seen(l, head), b, y), l.encodeGroup[0]), l.padMarker), b, z)
  {
    y := GroupSeen(l, c, b, 0, head);
    var last := AddGroup(c, 0, head);
    SeenPut(l, last, Mark, last.pos);
    z := ChanceSeen(l, c, b, Put(last, Mark));
  }

  /** What the decoder makes of the byte 0 when every pad is b: groups and marker between runs of pads. */
  lemma ZeroSeen(l: ByteLayout, c: Coder, b: byte, p: Bytes) returns (x: nat, y: nat, z: nat)
    requires l.Sized() && Picks(c, b) && p == [0]
    ensures x >= 1 && (c.tape[0] == 0 ==> y >= 1)
    ensures var g := l.encodeGroup[0];
      Seen(l, Plain(c, p, 0)) ==
        Steps(l, StepOn(l, StepOn(l, Steps(l, StepOn(l, Steps(l, Progress([], []), b, x), g), b, y), g), l.padMarker), b, z)
  {
    PlainOfZero(c, p);
    var s, y0 := HeadSeen(l, c, b);
    var y1, last := TailSeen(l, c, b, ZeroHead(c));
    x, y, z := s, y0 + y1, last;
    StepsAdd(l, StepOn(l, Steps(l, Progress([], []), b, x), l.encodeGroup[0]), b, y0, y1);
  }

  lemma HeadSeen(l: ByteLayout, c: Coder, b: byte) returns (x: nat, y: nat)
    requires l.Sized() && Picks(c, b)
    ensures x >= 1 && (c.tape[0] == 0 ==> y >= 1)
    ensures Seen(l, ZeroHead(c)) == Steps(l, StepOn(l, Steps(l, Progress([], []), b, x), l.encodeGroup[0]), b, y)
  {
    var o := Opening(c, 0);
    var d := Draft(o.syms, o.pos + 1);
    x := FirstSeen(l, c, b, d);
    y := SecondPads(l, c, b, AddGroup(c, 0, d), Gap(c, o.pos));
    if c.tape[0] == 0 { SmallestGap(c, o.pos); }
  }

  lemma FirstSeen(l: ByteLayout, c: Coder, b: byte, d: Draft) returns (x: nat)
    requires l.Sized() && Picks(c, b) && d.syms == Opening(c, 0).syms
    ensures x >= 1 && Seen(l, AddGroup(c, 0, d)) == StepOn(l, Steps(l, Progress([], []), b, x), l.encodeGroup[0])
  {
    var n := OpeningSeen(l, c, b);
    var k := GroupSeen(l, c, b, 0, d);
    StepsAdd(l, Progress([], []), b, n, k);
    x := n + k;
  }

  lemma SmallestGap(c: Coder, pos: nat)
    requires c.tape == [0]
    ensures Gap(c, pos) == 1
  {
    assert Classic.Drawn(c.tape, pos) == 0;
  }

  lemma SecondPads(l: ByteLayout, c: Coder, b: byte, e: Draft, gap: nat) returns (y: nat)
    requires l.Sized() && Picks(c, b)
    ensures gap <= 1 ==> y == 1
    ensures Seen(l, Behind(c, e, gap)) == Steps(l, Seen(l, e), b, y)
  {
    ForcedSeen(l, c, b, e);
    y := if gap > 1 then 0 else 1;
    var s := Seen(l, e);
    assert Steps(l, s, b, 0) == s && Steps(l, s, b, 1) == StepOn(l, Steps(l, s, b, 0), b);
  }

  /** Output and pending digits, counted in digits. */
  function Weight(s: Progress): nat { 4 * |s.out| + |s.pend| }

  /** A wire byte that does not clear the pending digits. */
  predicate Harmless(l: ByteLayout, b: byte)
    requires l.Sized()
  {
    l.decodeGroup[b] < 64 || b != l.padMarker
  }

  lemma StepWeighs(l: ByteLayout, s: Progress, b: byte)
    requires l.Sized() && |s.pend| < 4
    ensures var t := StepOn(l, s, b); |t.pend| < 4 && |t.out| >= |s.out|
    ensures l.decodeGroup[b] < 64 ==> Weight(StepOn(l, s, b)) == Weight(s) + 3
    ensures Harmless(l, b) ==> Weight(StepOn(l, s, b)) >= Weight(s)
  {
  }

  lemma {:induction false} StepsWeigh(l: ByteLayout, s: Progress, b: byte, n: nat)
    requires l.Sized() && |s.pend| < 4
    ensures var t := Steps(l, s, b, n); |t.pend| < 4 && |t.out| >= |s.out|
    ensures Harmless(l, b) ==> Weight(Steps(l, s, b, n)) >= Weight(s)
    ensures n >= 1 && l.decodeGroup[b] < 64 ==> Weight(Steps(l, s, b, n)) >= Weight(s) + 3
  {
    if n > 0 {
      StepsWeigh(l, s, b, n - 1);
      StepWeighs(l, Steps(l, s, b, n - 1), b);
    }
  }

  /** A pad or a marker that decodes as a group makes more than one byte of the byte 0. */
  lemma TooMuch(l: ByteLayout, b: byte, x: nat, y: nat, z: nat)
    requires l.GroupsOk() && x >= 1
    requires l.decodeGroup[b] < 64 || (l.decodeGroup[l.padMarker] < 64 && b != l.padMarker)
    ensures var g := l.encodeGroup[0];
      |Steps(l, StepOn(l, StepOn(l, Steps(l, StepOn(l, Steps(l, Progress([], []), b, x), g), b, y), g), l.padMarker), b, z).out| > 1
  {
    var g, m := l.encodeGroup[0], l.padMarker;
    var s1 := Steps(l, Progress([], []), b, x);
    StepsWeigh(l, Progress([], []), b, x);
    StepWeighs(l, s1, g);
    var s2 := StepOn(l, s1, g);
    StepsWeigh(l, s2, b, y);
    var s3 := Steps(l, s2, b, y);
    StepWeighs(l, s3, g);
    var s4 := StepOn(l, s3, g);
    StepWeighs(l, s4, m);
    StepsWeigh(l, StepOn(l, s4, m), b, z);
  }

  /** A marker used as padding throws away the digits of every group. */
  lemma TooLittle(l: ByteLayout, x: nat, y: nat, z: nat)
    requires l.GroupsOk() && l.decodeGroup[l.padMarker] >= 64 && y >= 1
    ensures var g, m := l.encodeGroup[0], l.padMarker;
      Steps(l, StepOn(l, StepOn(l, Steps(l, StepOn(l, Steps(l, Progress([], []), m, x), g), m, y), g), m), m, z).out == []
  {
    var g, m := l.encodeGroup[0], l.padMarker;
    Cleared(l, Progress([], []), x);
    var s1 := StepOn(l, Steps(l, Progress([], []), m, x), g);
    Cleared(l, s1, y);
    var s2 := StepOn(l, StepOn(l, Steps(l, s1, m, y), g), m);
    Cleared(l, s2, z);
  }

  lemma {:induction false} Cleared(l: ByteLayout, s: Progress, n: nat)
    requires l.Sized() && l.decodeGroup[l.padMarker] >= 64
    ensures Steps(l, s, l.padMarker, n) == if n == 0 then s else Progress(s.out, [])
  {
    if n > 0 { Cleared(l, s, n - 1); }
  }

  /** Some draw picks entry i. */
  lemma SomeDraw(i: nat, n: nat) returns (u: Classic.Draw)
    requires i < n <= Classic.PROB_ONE
    ensures Classic.Scaled(u, n) == i && (i == 0 ==> u == 0)
  {
    var v := (i * Classic.PROB_ONE + (n - 1)) / n;
    Quotient(i * Classic.PROB_ONE + (n - 1), n, v);
    NotTooLarge(i, n, v);
    u := v;
    Between(v * n, i);
    if i == 0 { assert v == (n - 1) / n; ZeroQuotient(n); }
  }

  lemma Quotient(a: nat, n: nat, q: nat)
    requires n > 0 && q == a / n
    ensures q * n <= a < q * n + n
  {
  }

  lemma ZeroQuotient(n: nat)
    requires n > 0
    ensures (n - 1) / n == 0
  {
  }

  lemma NotTooLarge(i: nat, n: nat, v: nat)
    requires i < n <= Classic.PROB_ONE && v * n <= i * Classic.PROB_ONE + (n - 1)
    ensures v < Classic.PROB_ONE
  {
    if v >= Classic.PROB_ONE {
      assert v * n >= Classic.PROB_ONE * n by { Scale(Classic.PROB_ONE, v, n); }
    }
  }

  lemma Scale(a: nat, b: nat, n: nat)
    requires a <= b
    ensures a * n <= b * n
  {
  }

  lemma Between(x: nat, i: nat)
    requires i * Classic.PROB_ONE <= x < (i + 1) * Classic.PROB_ONE
    ensures x / Classic.PROB_ONE == i
  {
  }

  /** Without the sentinel some draws make the Write of a single byte 0 decode to something else. */
  lemma WithoutSentinel(l: ByteLayout, threshold: nat) returns (tape: seq<Classic.Draw>)
    requires l.GroupsOk() && |l.paddingPool| <= Classic.PROB_ONE && !Sentinel(l)
    ensures Seen(l, Plain(Coder(PadPool(l), threshold, tape), [0], 0)).out != [0]
  {
    var pool := PadPool(l);
    if i :| 0 <= i < |pool| && (l.decodeGroup[pool[i]] < 64 || (l.decodeGroup[l.padMarker] < 64 && pool[i] != l.padMarker)) {
      var u := SomeDraw(i, |pool|);
      tape := [u];
      var x, y, z := ZeroSeen(l, Coder(pool, threshold, tape), pool[i], [0]);
      TooMuch(l, pool[i], x, y, z);
    } else {
      var i := MarkerInPool(l);
      var u := SomeDraw(0, |pool|);
      tape := [u];
      var x, y, z := ZeroSeen(l, Coder(pool, threshold, tape), l.padMarker, [0]);
      TooLittle(l, x, y, z);
    }
  }

  lemma MarkerInPool(l: ByteLayout) returns (i: nat)
    requires l.Sized() && !Sentinel(l)
    requires forall i | 0 <= i < |PadPool(l)| ::
      l.decodeGroup[PadPool(l)[i]] >= 64 && (l.decodeGroup[l.padMarker] >= 64 || PadPool(l)[i] == l.padMarker)
    ensures PadPool(l) == [l.padMarker] && l.decodeGroup[l.padMarker] >= 64 && i == 0
  {
    i := 0;
    var pool := PadPool(l);
    assert pool[0] in pool;
  }

  /** Whatever is drawn, every single Write decodes to its payload, nothing left pending. */
  ghost predicate RoundTrips(l: ByteLayout, threshold: nat)
    requires l.Sized()
  {
    forall tape: seq<Classic.Draw>, p: Bytes, pos: nat | p != [] ::
      Seen(l, Plain(Coder(PadPool(l), threshold, tape), p, pos)) == Progress(p, [])
  }

  /** The exact condition for the packed codec to be lossless, at any padding threshold. */
  lemma RoundTripsIffSentinel(l: ByteLayout, threshold: nat)
    requires l.GroupsOk() && |l.paddingPool| <= Classic.PROB_ONE
    ensures RoundTrips(l, threshold) <==> Sentinel(l)
  {
    if Sentinel(l) {
      forall tape: seq<Classic.Draw>, p: Bytes, pos: nat | p != []
        ensures Seen(l, Plain(Coder(PadPool(l), threshold, tape), p, pos)) == Progress(p, [])
      {
        PlainEmits(Coder(PadPool(l), threshold, tape), p, pos);
        WriteDecodes(l, [], p, Plain(Coder(PadPool(l), threshold, tape), p, pos).syms);
        assert [] + p == p;
      }
    } else {
      var tape := WithoutSentinel(l, threshold);
      assert Seen(l, Plain(Coder(PadPool(l), threshold, tape), [0], 0)) != Progress([0], []);
    }
  }

  /** Some payload and some draws do not come back. */
  ghost predicate Lossy(l: ByteLayout, threshold: nat) { l.Sized() && !RoundTrips(l, threshold) }

  lemma ZeroMarkerIsLossy(l: ByteLayout, threshold: nat)
    requires l.GroupsOk() && |l.paddingPool| <= Classic.PROB_ONE && l.decodeGroup[l.padMarker] == 0
    ensures Lossy(l, threshold)
  {
    RoundTripsIffSentinel(l, threshold);
  }

  /** None of the layouts the constructors build meets the condition: their unused entries are 0. */
  lemma ShippedLayoutsAreLossy(pattern: seq<Symbol>, threshold: nat)
    requires GoodPattern(pattern)
    ensures Lossy(AsciiLayout(), threshold) && Lossy(EntropyLayout(), threshold)
    ensures CustomLayout(pattern).Some? && Lossy(CustomLayout(pattern).value, threshold)
  {
    AsciiIsGood();
    AsciiMarker();
    ZeroMarkerIsLossy(AsciiLayout(), threshold);
    EntropyIsGood();
    EntropyMarker();
    ZeroMarkerIsLossy(EntropyLayout(), threshold);
    CustomIsGood(pattern);
    CustomMarker(pattern, CustomLayout(pattern).value);
    ZeroMarkerIsLossy(CustomLayout(pattern).value, threshold);
  }

  lemma AsciiMarker()
    ensures AsciiLayout().Sized() && AsciiLayout().decodeGroup[AsciiLayout().padMarker] == 0
  {
    assert AsciiGroup(0x3F) == 0;
  }

  lemma EntropyMarker()
    ensures EntropyLayout().Sized() && EntropyLayout().decodeGroup[EntropyLayout().padMarker] == 0
  {
    assert EntropyGroup(0x80) == 0;
  }

  lemma CustomMarker(pattern: seq<Symbol>, l: ByteLayout)
    requires CustomLayout(pattern) == Some(l)
    ensures l.Sized() && l.decodeGroup[l.padMarker] == 0
  {
    CustomSized(pattern, l);
    CustomTables(pattern, l, l.padMarker);
    CustomMarkerIsPad(pattern, l);
    CustomPadEntry(pattern, l, l.padMarker);
  }
}
