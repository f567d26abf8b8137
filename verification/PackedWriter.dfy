/** PackedConn's writing half: protected prefix, aligned blocks through a bounded buffer, residual and marker. */
module PackedWriter {
  import opened Common
  import opened Layout
  import opened Packed
  import opened PackedEncoder
  import opened Classic

  /** The pool NewPackedConn draws from: the layout's padding without the marker, or only the marker. */
  function PadPool(l: ByteLayout): (pool: seq<byte>)
    ensures pool != [] && |pool| <= Max(1, |l.paddingPool|)
    ensures forall b <- pool :: (b in l.paddingPool && b != l.padMarker) || pool == [l.padMarker]
  {
    var rest := Without(l.paddingPool, l.padMarker);
    if rest == [] then [l.padMarker] else rest
  }

  function Without(pool: seq<byte>, marker: byte): (r: seq<byte>)
    ensures |r| <= |pool| && forall b :: b in r <==> b in pool && b != marker
  {
    if pool == [] then []
    else if pool[0] == marker then Without(pool[1..], marker)
    else [pool[0]] + Without(pool[1..], marker)
  }

  // ---------------------------------------------------------------------------
  // The direct block formulas are the bit buffer's groups

  function BlockGroups(b0: byte, b1: byte, b2: byte): seq<Group> {
    [b0 / 4, (b0 % 4) * 16 + b1 / 16, (b1 % 16) * 4 + b2 / 64, b2 % 64]
  }

  /** A byte cut after one, two or three of its digits. */
  function Tail1(b: byte): seq<Digit> { [b % 4] }
  function Tail2(b: byte): seq<Digit> { [(b / 4) % 4, b % 4] }

  lemma FeedOne(gs: seq<Group>, ds: seq<Digit>, g: Group, rest: seq<Digit>)
    requires |ds| >= 3 && ToGroup(ds) == g && ds[3..] == rest
    ensures FeedDigits(gs, ds) == FeedDigits(gs + [g], rest)
  {
  }

  lemma Group0(b0: byte)
    ensures var d := [] + ByteDigits(b0); ToGroup(d) == b0 / 4 && d[3..] == Tail1(b0)
  {
    assert 16 * (b0 / 64) + 4 * ((b0 / 16) % 4) + (b0 / 4) % 4 == b0 / 4;
  }

  lemma Group1(b0: byte, b1: byte)
    ensures var d := Tail1(b0) + ByteDigits(b1); ToGroup(d) == (b0 % 4) * 16 + b1 / 16 && d[3..] == Tail2(b1)
  {
    assert 4 * (b1 / 64) + (b1 / 16) % 4 == b1 / 16;
  }

  lemma LowGroup(b: byte)
    ensures GroupDigits(b % 64) == [(b / 16) % 4, (b / 4) % 4, b % 4]
  {
    LowPart(b / 64, b % 64);
  }

  lemma LowPart(q: nat, r: Group)
    ensures ((64 * q + r) / 16) % 4 == r / 16 && ((64 * q + r) / 4) % 4 == (r / 4) % 4 && (64 * q + r) % 4 == r % 4
  {
    assert (64 * q + r) / 4 == 16 * q + r / 4 && (64 * q + r) / 16 == 4 * q + r / 16;
  }

  lemma Group2(b1: byte, b2: byte)
    ensures var d := Tail2(b1) + ByteDigits(b2);
      && ToGroup(d) == (b1 % 16) * 4 + b2 / 64 && d[3..] == GroupDigits(b2 % 64)
  {
    assert 16 * ((b1 / 4) % 4) + 4 * (b1 % 4) == (b1 % 16) * 4;
    LowGroup(b2);
  }

  /** Three bytes from a group boundary: appendPackedBlocks and the bit buffer agree. */
  lemma BlockAgrees(p: Bytes, b0: byte, b1: byte, b2: byte)
    requires Fed(p).1 == []
    ensures Fed(p + [b0, b1, b2]) == (Fed(p).0 + BlockGroups(b0, b1, b2), [])
  {
    assert p + [b0] + [b1] + [b2] == p + [b0, b1, b2];
    FedSnoc(p, b0);
    FedSnoc(p + [b0], b1);
    FedSnoc(p + [b0] + [b1], b2);
    BlockFeeds(Fed(p).0, b0, b1, b2);
  }

  lemma BlockFeeds(gs: seq<Group>, b0: byte, b1: byte, b2: byte)
    ensures var one := FeedDigits(gs, [] + ByteDigits(b0));
      var two := FeedDigits(one.0, one.1 + ByteDigits(b1));
      FeedDigits(two.0, two.1 + ByteDigits(b2)) == (gs + BlockGroups(b0, b1, b2), [])
  {
    Group0(b0);
    FeedOne(gs, [] + ByteDigits(b0), b0 / 4, Tail1(b0));
    Group1(b0, b1);
    FeedOne(gs + [b0 / 4], Tail1(b0) + ByteDigits(b1), (b0 % 4) * 16 + b1 / 16, Tail2(b1));
    FeedLast(gs + [b0 / 4] + [(b0 % 4) * 16 + b1 / 16], b1, b2);
    JoinFour(gs, b0 / 4, (b0 % 4) * 16 + b1 / 16, (b1 % 16) * 4 + b2 / 64, b2 % 64);
  }

  lemma FeedLast(gs: seq<Group>, b1: byte, b2: byte)
    ensures FeedDigits(gs, Tail2(b1) + ByteDigits(b2)) == (gs + [(b1 % 16) * 4 + b2 / 64] + [b2 % 64], [])
  {
    var g2: Group, g3: Group := (b1 % 16) * 4 + b2 / 64, b2 % 64;
    Group2(b1, b2);
    GroupBack(g3, []);
    FeedOne(gs, Tail2(b1) + ByteDigits(b2), g2, GroupDigits(g3));
    FeedOne(gs + [g2], GroupDigits(g3) + [], g3, []);
    assert GroupDigits(g3) + [] == GroupDigits(g3);
  }

  lemma JoinFour(gs: seq<Group>, g0: Group, g1: Group, g2: Group, g3: Group)
    ensures gs + [g0] + [g1] + [g2] + [g3] == gs + [g0, g1, g2, g3]
  {
  }

  /** The block's four groups are what the plain encoder makes of its three bytes. */
  lemma BlockIsPlain(c: Coder, p: Bytes, i: nat, j: nat, d: Draft)
    requires c.pool != [] && i <= j && j + 3 <= |p| && Fed(p[..j]).1 == []
    ensures AddRange(c, p, i, j + 3, d) == AddGroups(c, BlockGroups(p[j], p[j + 1], p[j + 2]), AddRange(c, p, i, j, d))
  {
    ThreeBytes(c, p, i, j, d);
    FourGroups(c, BlockGroups(p[j], p[j + 1], p[j + 2]), AddRange(c, p, i, j, d));
  }

  function AddFour(c: Coder, gs: seq<Group>, d: Draft): Draft
    requires c.pool != [] && |gs| == 4
  {
    AddGroup(c, gs[3], AddGroup(c, gs[2], AddGroup(c, gs[1], AddGroup(c, gs[0], d))))
  }

  lemma ThreeBytes(c: Coder, p: Bytes, i: nat, j: nat, d: Draft)
    requires c.pool != [] && i <= j && j + 3 <= |p| && Fed(p[..j]).1 == []
    ensures AddRange(c, p, i, j + 3, d) == AddFour(c, BlockGroups(p[j], p[j + 1], p[j + 2]), AddRange(c, p, i, j, d))
  {
    FirstInRange(c, p, i, j, d);
    SecondInRange(c, p, i, j, d);
    ThirdInRange(c, p, i, j, d);
    OneByOne(c, BlockGroups(p[j], p[j + 1], p[j + 2]),
             AddRange(c, p, i, j, d), AddRange(c, p, i, j + 1, d), AddRange(c, p, i, j + 2, d), AddRange(c, p, i, j + 3, d));
  }

  lemma OneByOne(c: Coder, gs: seq<Group>, d0: Draft, d1: Draft, d2: Draft, d3: Draft)
    requires c.pool != [] && |gs| == 4 && d1 == AddGroup(c, gs[0], d0) && d2 == AddGroup(c, gs[1], d1)
    requires d3 == AddGroup(c, gs[3], AddGroup(c, gs[2], d2))
    ensures d3 == AddFour(c, gs, d0)
  {
  }

  lemma FirstInRange(c: Coder, p: Bytes, i: nat, j: nat, d: Draft)
    requires c.pool != [] && i <= j < |p| && Fed(p[..j]).1 == []
    ensures AddRange(c, p, i, j + 1, d) == AddGroup(c, p[j] / 4, AddRange(c, p, i, j, d))
  {
    var before := AddRange(c, p, i, j, d);
    FirstOfThree(c, p, j, before);
    RangeSnoc(c, p, i, j, d, before);
  }

  lemma SecondInRange(c: Coder, p: Bytes, i: nat, j: nat, d: Draft)
    requires c.pool != [] && i <= j && j + 2 <= |p| && Fed(p[..j]).1 == []
    ensures AddRange(c, p, i, j + 2, d) == AddGroup(c, (p[j] % 4) * 16 + p[j + 1] / 16, AddRange(c, p, i, j + 1, d))
  {
    var before := AddRange(c, p, i, j + 1, d);
    Boundaries(p, j);
    SecondOfThree(c, p, j + 1, p[j], before);
    RangeSnoc(c, p, i, j + 1, d, before);
  }

  lemma ThirdInRange(c: Coder, p: Bytes, i: nat, j: nat, d: Draft)
    requires c.pool != [] && i <= j && j + 3 <= |p| && Fed(p[..j]).1 == []
    ensures AddRange(c, p, i, j + 3, d)
      == AddGroup(c, p[j + 2] % 64, AddGroup(c, (p[j + 1] % 16) * 4 + p[j + 2] / 64, AddRange(c, p, i, j + 2, d)))
  {
    var before := AddRange(c, p, i, j + 2, d);
    Boundaries(p, j);
    ThirdOfThree(c, p, j + 2, p[j + 1], before);
    RangeSnoc(c, p, i, j + 2, d, before);
  }

  lemma RangeSnoc(c: Coder, p: Bytes, i: nat, j: nat, d: Draft, e: Draft)
    requires c.pool != [] && i <= j < |p| && AddRange(c, p, i, j, d) == e
    ensures AddRange(c, p, i, j + 1, d) == AddByte(c, p, j, e)
  {
  }

  lemma BlockBoundary(p: Bytes, j: nat)
    requires j + 3 <= |p| && Fed(p[..j]).1 == []
    ensures Fed(p[..j + 3]).1 == []
  {
    BlockAgrees(p[..j], p[j], p[j + 1], p[j + 2]);
    assert p[..j + 3] == p[..j] + [p[j], p[j + 1], p[j + 2]];
  }

  lemma FirstOfThree(c: Coder, p: Bytes, j: nat, d: Draft)
    requires c.pool != [] && j < |p| && Fed(p[..j]).1 == []
    ensures AddByte(c, p, j, d) == AddGroup(c, p[j] / 4, d)
  {
    Group0(p[j]);
    DigitsOnce(c, [] + ByteDigits(p[j]), p[j] / 4, Tail1(p[j]), d);
  }

  lemma SecondOfThree(c: Coder, p: Bytes, j: nat, b0: byte, d: Draft)
    requires c.pool != [] && j < |p| && Fed(p[..j]).1 == Tail1(b0)
    ensures AddByte(c, p, j, d) == AddGroup(c, (b0 % 4) * 16 + p[j] / 16, d)
  {
    Group1(b0, p[j]);
    DigitsOnce(c, Tail1(b0) + ByteDigits(p[j]), (b0 % 4) * 16 + p[j] / 16, Tail2(p[j]), d);
  }

  lemma ThirdOfThree(c: Coder, p: Bytes, j: nat, b1: byte, d: Draft)
    requires c.pool != [] && j < |p| && Fed(p[..j]).1 == Tail2(b1)
    ensures AddByte(c, p, j, d) == AddGroup(c, p[j] % 64, AddGroup(c, (b1 % 16) * 4 + p[j] / 64, d))
  {
    var g: Group, h: Group := (b1 % 16) * 4 + p[j] / 64, p[j] % 64;
    Group2(b1, p[j]);
    DigitsTwice(c, Tail2(b1) + ByteDigits(p[j]), g, h, d);
  }

  /** The digits left over after one and after two bytes behind a group boundary. */
  lemma Boundaries(p: Bytes, j: nat)
    requires j + 2 <= |p| && Fed(p[..j]).1 == []
    ensures Fed(p[..j + 1]).1 == Tail1(p[j]) && Fed(p[..j + 2]).1 == Tail2(p[j + 1])
  {
    assert p[..j + 1] == p[..j] + [p[j]] && p[..j + 2] == p[..j + 1] + [p[j + 1]];
    FedSnoc(p[..j], p[j]);
    FedSnoc(p[..j + 1], p[j + 1]);
    Group0(p[j]);
    FeedOne(Fed(p[..j]).0, [] + ByteDigits(p[j]), p[j] / 4, Tail1(p[j]));
    Group1(p[j], p[j + 1]);
    FeedOne(Fed(p[..j + 1]).0, Tail1(p[j]) + ByteDigits(p[j + 1]), (p[j] % 4) * 16 + p[j + 1] / 16, Tail2(p[j + 1]));
  }

  lemma DigitsOnce(c: Coder, ds: seq<Digit>, g: Group, rest: seq<Digit>, d: Draft)
    requires c.pool != [] && |ds| >= 3 && ToGroup(ds) == g && ds[3..] == rest && |rest| < 3
    ensures AddDigits(c, ds, d) == AddGroup(c, g, d)
  {
  }

  lemma DigitsTwice(c: Coder, ds: seq<Digit>, g: Group, h: Group, d: Draft)
    requires c.pool != [] && |ds| >= 3 && ToGroup(ds) == g && ds[3..] == GroupDigits(h)
    ensures AddDigits(c, ds, d) == AddGroup(c, h, AddGroup(c, g, d))
  {
    GroupBack(h, []);
    assert GroupDigits(h) + [] == GroupDigits(h);
    DigitsOnce(c, GroupDigits(h), h, [], AddGroup(c, g, d));
  }

  lemma FourGroups(c: Coder, gs: seq<Group>, d: Draft)
    requires c.pool != [] && |gs| == 4
    ensures AddGroups(c, gs, d) == AddFour(c, gs, d)
  {
    var three, two, one := gs[..3], gs[..2], gs[..1];
    assert three[..2] == two && two[..1] == one && one[..0] == [];
    assert AddGroups(c, one, d) == AddGroup(c, gs[0], d);
    assert AddGroups(c, two, d) == AddGroup(c, gs[1], AddGroups(c, one, d));
    assert AddGroups(c, three, d) == AddGroup(c, gs[2], AddGroups(c, two, d));
  }

  // ---------------------------------------------------------------------------
  // The writer

  lemma RenderSnoc(l: ByteLayout, syms: seq<Sym>, s: Sym)
    requires l.Sized()
    ensures Render(l, syms + [s]) == Render(l, syms) + [match s case G(g) => l.encodeGroup[g] case Mark => l.padMarker case Pad(b) => b]
  {
    assert (syms + [s])[..|syms|] == syms;
  }

  class Writer {
    const layout: ByteLayout
    const padPool: seq<byte>
    const threshold: nat
    var bitBuf: nat
    var bitCount: nat

    ghost predicate Sane()
      reads this
    {
      layout.Sized() && padPool != [] && bitCount <= 12 && bitCount % 2 == 0 && bitBuf < Bound(bitCount / 2)
    }

    /** The digits in the bit buffer. */
    ghost function Pend(): (d: seq<Digit>)
      requires Sane()
      reads this
      ensures |d| == bitCount / 2
    {
      ToDigits(bitBuf, bitCount / 2)
    }

    /** The plain encoder with this connection's padding and draws. */
    ghost function Plainly(rng: Rand): Coder { Coder(padPool, threshold, rng.tape) }

    /** The symbols so far are rendered behind what went out before, with the same draws used up. */
    ghost predicate Shows(rng: Rand, before: Bytes, out: Bytes, d: Draft)
      reads rng
    {
      layout.Sized() && padPool != [] && before + out == Render(layout, d.syms) && rng.pos == d.pos
    }

    constructor (layout: ByteLayout, threshold: nat)
      requires layout.Sized()
      ensures Sane() && bitCount == 0 && this.layout == layout && padPool == PadPool(layout) && this.threshold == threshold
    {
      this.layout, this.padPool, this.threshold := layout, PadPool(layout), threshold;
      bitBuf, bitCount := 0, 0;
    }

    method Emit(ghost rng: Rand, out: Bytes, capacity: nat, s: Sym, ghost before: Bytes, ghost d: Draft) returns (out': Bytes)
      requires |out| < capacity && Shows(rng, before, out, d)
      ensures Shows(rng, before, out', Put(d, s)) && |out'| == |out| + 1
      ensures s.Pad? ==> out' == out + [s.b]
    {
      out' := Append(out, capacity, match s case G(g) => layout.encodeGroup[g] case Mark => layout.padMarker case Pad(b) => b);
      RenderSnoc(layout, d.syms, s);
      ConcatAssoc(before, out, [out'[|out|]]);
    }

    method ForcedPad(rng: Rand, out: Bytes, capacity: nat, ghost before: Bytes, ghost d: Draft) returns (out': Bytes)
      requires |out| < capacity && Shows(rng, before, out, d)
      modifies rng
      ensures Shows(rng, before, out', AddForced(Plainly(rng), d)) && |out'| == |out| + 1
      ensures out' == out + [padPool[if |padPool| == 1 then 0 else Scaled(Drawn(rng.tape, old(rng.pos)), |padPool|)]]
    {
      var k := rng.Intn(|padPool|);
      out' := Emit(rng, out, capacity, Pad(padPool[k]), before, Draft(d.syms, rng.pos));
    }

    /** maybeAppendPackedPadding. */
    method ChancePad(rng: Rand, out: Bytes, capacity: nat, ghost before: Bytes, ghost d: Draft) returns (out': Bytes)
      requires (threshold > 0 ==> |out| < capacity) && Shows(rng, before, out, d)
      modifies rng
      ensures Shows(rng, before, out', AddChance(Plainly(rng), d))
      ensures |out| <= |out'| <= |out| + (if threshold == 0 then 0 else 1)
      ensures var u, v := Drawn(rng.tape, old(rng.pos)), Drawn(rng.tape, old(rng.pos) + 1);
        out' == if u < threshold then out + [padPool[Scaled(v, |padPool|)]] else out
    {
      out' := out;
      if threshold != 0 {
        var u := rng.Uint32();
        if u < threshold {
          var v := rng.Uint32();
          out' := Emit(rng, out, capacity, Pad(padPool[Scaled(v, |padPool|)]), before, Draft(d.syms, rng.pos));
        }
      }
    }

    /** appendPackedGroup. */
    method AppendGroup(rng: Rand, out: Bytes, capacity: nat, g: Group, ghost before: Bytes, ghost d: Draft) returns (out': Bytes)
      requires |out| + (if threshold == 0 then 1 else 2) <= capacity && Shows(rng, before, out, d)
      modifies rng
      ensures Shows(rng, before, out', AddGroup(Plainly(rng), g, d))
      ensures |out'| <= |out| + (if threshold == 0 then 1 else 2)
    {
      out' := ChancePad(rng, out, capacity, before, d);
      out' := Emit(rng, out', capacity, G(g), before, AddChance(Plainly(rng), d));
    }

    /** The shift of one byte into the bit buffer. */
    method Push(b: byte)
      requires Sane() && bitCount < 6
      modifies this`bitBuf, this`bitCount
      ensures Sane() && bitCount == old(bitCount) + 8 && Pend() == old(Pend()) + ByteDigits(b)
    {
      ghost var n := bitCount / 2;
      PushByte(bitBuf, n, b);
      PushBound(bitBuf, n, b);
      assert (bitCount + 8) / 2 == n + 4;
      bitBuf := bitBuf * 256 + b;
      bitCount := bitCount + 8;
    }

    /** The extraction of the topmost group. */
    method Pop() returns (group: Group)
      requires Sane() && bitCount >= 6
      modifies this`bitBuf, this`bitCount
      ensures Sane() && bitCount == old(bitCount) - 6 && old(Pend()) == GroupDigits(group) + Pend()
    {
      ghost var n := (bitCount - 6) / 2;
      assert bitCount / 2 == n + 3;
      TopGroup(bitBuf, n);
      bitCount := bitCount - 6;
      group, bitBuf := bitBuf / Shift(bitCount / 2), bitBuf % Shift(bitCount / 2);
    }

    /** One byte into the bit buffer, and every complete group out of it. */
    method FeedByte(rng: Rand, out: Bytes, capacity: nat, b: byte, ghost before: Bytes, ghost d: Draft) returns (out': Bytes)
      requires Sane() && bitCount < 6 && |out| + Growth(bitCount) <= capacity && Shows(rng, before, out, d)
      modifies rng, this`bitBuf, this`bitCount
      ensures Sane() && bitCount == Next(old(bitCount)) && |out'| <= |out| + Growth(old(bitCount))
      ensures Shows(rng, before, out', AddDigits(Plainly(rng), old(Pend()) + ByteDigits(b), d))
      ensures Pend() == FeedDigits([], old(Pend()) + ByteDigits(b)).1
    {
      Push(b);
      out' := out;
      ghost var now, acc: seq<Group> := d, [];
      ghost var goal, left := AddDigits(Plainly(rng), Pend(), d), FeedDigits([], Pend()).1;
      while bitCount >= 6
        invariant Sane() && bitCount - Next(old(bitCount)) in {0, 6, 12}
        invariant Shows(rng, before, out', now) && AddDigits(Plainly(rng), Pend(), now) == goal
        invariant FeedDigits(acc, Pend()).1 == left
        invariant |out'| + Growth(bitCount - 8) <= |out| + Growth(old(bitCount))
        decreases bitCount
      {
        ghost var ds := Pend();
        var group := Pop();
        GroupBack(group, Pend());
        assert AddDigits(Plainly(rng), ds, now) == AddDigits(Plainly(rng), Pend(), AddGroup(Plainly(rng), group, now));
        assert FeedDigits(acc, ds) == FeedDigits(acc + [group], Pend());
        out' := AppendGroup(rng, out', capacity, group, before, now);
        now, acc := AddGroup(Plainly(rng), group, now), acc + [group];
      }
    }

    /** The bit buffer holds the digits the first i bytes left over. */
    ghost predicate At(p: Bytes, i: nat)
      reads this
    {
      i <= |p| && Sane() && bitCount < 6 && Pend() == Fed(p[..i]).1
    }

    method FeedNext(rng: Rand, out: Bytes, capacity: nat, p: Bytes, i: nat, ghost before: Bytes, ghost d: Draft)
      returns (out': Bytes)
      requires At(p, i) && i < |p| && |out| + Growth(bitCount) <= capacity && Shows(rng, before, out, d)
      modifies rng, this`bitBuf, this`bitCount
      ensures At(p, i + 1) && bitCount == Next(old(bitCount)) && |out'| <= |out| + Growth(old(bitCount))
      ensures Shows(rng, before, out', AddByte(Plainly(rng), p, i, d))
    {
      assert p[..i + 1] == p[..i] + [p[i]];
      FedSnoc(p[..i], p[i]);
      LeftOver(Fed(p[..i]).0, [], Fed(p[..i]).1 + ByteDigits(p[i]));
      out' := FeedByte(rng, out, capacity, p[i], before, d);
    }

    /** Forced padding in front of and between the first bytes. */
    method WriteProtectedPrefix(rng: Rand, capacity: nat, p: Bytes) returns (out: Bytes, i: nat)
      requires Sane() && bitCount == 0 && p != [] && 5 * Min(|p|, PREFIX) + 2 <= capacity
      modifies rng, this`bitBuf, this`bitCount
      ensures i == Min(|p|, PREFIX) && At(p, i) && |out| <= 5 * i + 2
      ensures Shows(rng, [], out, Prefix(Plainly(rng), p, old(rng.pos)))
    {
      var gap;
      out, gap := OpenPrefix(rng, capacity);
      assert p[..0] == [];
      out, i := ProtectedBytes(rng, out, capacity, p, gap, old(rng.pos));
    }

    method OpenPrefix(rng: Rand, capacity: nat) returns (out: Bytes, gap: nat)
      requires Sane() && capacity >= 2
      modifies rng
      ensures |out| <= 2 && gap == Gap(Plainly(rng), Opening(Plainly(rng), old(rng.pos)).pos)
      ensures var o := Opening(Plainly(rng), old(rng.pos)); Shows(rng, [], out, Draft(o.syms, o.pos + 1))
    {
      out := Open(rng, capacity);
      gap := rng.Intn(2);
      gap := 1 + gap;
    }

    method ProtectedBytes(rng: Rand, out0: Bytes, capacity: nat, p: Bytes, gap0: nat, ghost pos: nat) returns (out: Bytes, i: nat)
      requires At(p, 0) && |out0| <= 2 && 5 * Min(|p|, PREFIX) + 2 <= capacity
      requires var o := Opening(Plainly(rng), pos);
        gap0 == Gap(Plainly(rng), o.pos) && Shows(rng, [], out0, Draft(o.syms, o.pos + 1))
      modifies rng, this`bitBuf, this`bitCount
      ensures i == Min(|p|, PREFIX) && At(p, i) && |out| <= 5 * i + 2
      ensures Shows(rng, [], out, Prefix(Plainly(rng), p, pos))
    {
      ghost var c := Plainly(rng);
      ghost var goal, now := Prefix(c, p, pos), Draft(Opening(c, pos).syms, Opening(c, pos).pos + 1);
      PrefixStarts(c, p, pos, gap0);
      var limit, effective, gap := Min(|p|, PREFIX), 0, gap0;
      out, i := out0, 0;
      while i < limit
        invariant i <= limit && 0 <= effective < gap <= 2 && At(p, i) && |out| <= 5 * i + 2
        invariant Shows(rng, [], out, now) && AddPrefix(c, p, i, effective, gap, now) == goal
      {
        out, effective, gap, now := NextProtected(rng, out, capacity, p, i, effective, gap, now);
        i := i + 1;
      }
    }

    /** One byte of the protected prefix, and the forced pad when its turn has come. */
    method NextProtected(rng: Rand, out0: Bytes, capacity: nat, p: Bytes, i: nat, effective0: nat, gap0: nat, ghost d: Draft)
      returns (out: Bytes, effective: nat, gap: nat, ghost d': Draft)
      requires At(p, i) && i < Min(|p|, PREFIX) && effective0 < gap0 <= 2 && |out0| + 5 <= capacity && Shows(rng, [], out0, d)
      modifies rng, this`bitBuf, this`bitCount
      ensures At(p, i + 1) && effective < gap <= 2 && |out| <= |out0| + 5 && Shows(rng, [], out, d')
      ensures AddPrefix(Plainly(rng), p, i, effective0, gap0, d) == AddPrefix(Plainly(rng), p, i + 1, effective, gap, d')
    {
      out := FeedNext(rng, out0, capacity, p, i, [], d);
      d', gap, effective := AddByte(Plainly(rng), p, i, d), gap0, effective0 + 1;
      if effective >= gap {
        out := ForcedPad(rng, out, capacity, [], d');
        d', effective := AddForced(Plainly(rng), d'), 0;
        gap := rng.Intn(2);
        gap := 1 + gap;
        d' := Draft(d'.syms, d'.pos + 1);
      }
    }

    /** The loop in front of everything, whose test draws each time. */
    method Open(rng: Rand, capacity: nat) returns (out: Bytes)
      requires Sane() && capacity >= 2
      modifies rng
      ensures 1 <= |out| <= 2 && Shows(rng, [], out, Opening(Plainly(rng), old(rng.pos)))
    {
      ghost var c, start := Plainly(rng), Draft([], rng.pos + 1);
      var k := rng.Intn(2);
      out := ForcedPad(rng, [], capacity, [], start);
      ghost var one := AddForced(c, start);
      k := rng.Intn(2);
      if 1 < 1 + k {
        ghost var next := Draft(one.syms, one.pos + 1);
        out := ForcedPad(rng, out, capacity, [], next);
        ghost var two := AddForced(c, next);
        k := rng.Intn(2);
        assert Opening(c, old(rng.pos)) == Draft(two.syms, two.pos + 1);
      } else {
        assert Opening(c, old(rng.pos)) == Draft(one.syms, one.pos + 1);
      }
    }

    /** Bytes up to the next group boundary, one possible pad before each. */
    method Align(rng: Rand, out0: Bytes, capacity: nat, p: Bytes, i0: nat, ghost d: Draft) returns (out: Bytes, i: nat)
      requires At(p, i0) && Shows(rng, [], out0, d) && |out0| + (if i0 < |p| then 16 else 8) <= capacity
      modifies rng, this`bitBuf, this`bitCount
      ensures At(p, i) && |out| + 8 <= capacity && i0 <= i && (bitCount == 0 || i == |p|)
      ensures AddAligned(Plainly(rng), p, i0, d).1 == i && Shows(rng, [], out, AddAligned(Plainly(rng), p, i0, d).0)
    {
      ghost var c, now := Plainly(rng), d;
      out, i := out0, i0;
      while bitCount > 0 && i < |p|
        invariant i0 <= i && At(p, i) && Shows(rng, [], out, now) && AddAligned(c, p, i, now) == AddAligned(c, p, i0, d)
        invariant |out| + 8 + (if i < |p| then Slack(bitCount) else 0) <= capacity
        decreases |p| - i
      {
        out := ChancePad(rng, out, capacity, [], now);
        out := FeedNext(rng, out, capacity, p, i, [], AddChance(c, now));
        now := AddByte(c, p, i, AddChance(c, now));
        i := i + 1;
      }
    }

    /** One block of appendPackedBlocks; the source tests the threshold once, outside its loops. */
    method AppendBlock(rng: Rand, out0: Bytes, capacity: nat, b0: byte, b1: byte, b2: byte, ghost before: Bytes, ghost d: Draft)
      returns (out: Bytes)
      requires |out0| + BlockSize() <= capacity && Shows(rng, before, out0, d)
      modifies rng
      ensures Shows(rng, before, out, AddGroups(Plainly(rng), BlockGroups(b0, b1, b2), d)) && |out| <= |out0| + BlockSize()
    {
      var groups: seq<Group> := [b0 / 4, (b0 % 4) * 16 + b1 / 16, (b1 % 16) * 4 + b2 / 64, b2 % 64];
      out := out0;
      for k := 0 to 4
        invariant Shows(rng, before, out, AddGroups(Plainly(rng), groups[..k], d))
        invariant |out| <= |out0| + (if threshold == 0 then k else 2 * k)
      {
        assert groups[..k + 1][..k] == groups[..k];
        if threshold == 0 {
          out := Emit(rng, out, capacity, G(groups[k]), before, AddGroups(Plainly(rng), groups[..k], d));
        } else {
          out := AppendGroup(rng, out, capacity, groups[k], before, AddGroups(Plainly(rng), groups[..k], d));
        }
      }
      assert groups[..4] == groups;
    }

    function BlockSize(): nat { if threshold == 0 then 4 else 8 }

    function Need(blocks: nat): nat { if threshold == 0 then 4 * blocks else 8 * blocks }

    method AppendBlocks(rng: Rand, out0: Bytes, capacity: nat, p: Bytes, i0: nat, i: nat, blocks: nat, ghost before: Bytes, ghost d: Draft)
      returns (out: Bytes)
      requires At(p, i) && bitCount == 0 && i0 <= i && i + 3 * blocks <= |p| && |out0| + Need(blocks) <= capacity
      requires Shows(rng, before, out0, AddRange(Plainly(rng), p, i0, i, d))
      modifies rng
      ensures At(p, i + 3 * blocks) && |out| <= |out0| + Need(blocks)
      ensures Shows(rng, before, out, AddRange(Plainly(rng), p, i0, i + 3 * blocks, d))
    {
      out := out0;
      for k := 0 to blocks
        invariant At(p, i + 3 * k) && |out| <= |out0| + Need(k)
        invariant Shows(rng, before, out, AddRange(Plainly(rng), p, i0, i + 3 * k, d))
      {
        out := AppendNext(rng, out, capacity, p, i0, i + 3 * k, before, d);
      }
    }

    method AppendNext(rng: Rand, out0: Bytes, capacity: nat, p: Bytes, i0: nat, j: nat, ghost before: Bytes, ghost d: Draft)
      returns (out: Bytes)
      requires At(p, j) && bitCount == 0 && i0 <= j && j + 3 <= |p| && |out0| + BlockSize() <= capacity
      requires Shows(rng, before, out0, AddRange(Plainly(rng), p, i0, j, d))
      modifies rng
      ensures At(p, j + 3) && |out| <= |out0| + BlockSize()
      ensures Shows(rng, before, out, AddRange(Plainly(rng), p, i0, j + 3, d))
    {
      BlockIsPlain(Plainly(rng), p, i0, j, d);
      BlockBoundary(p, j);
      out := AppendBlock(rng, out0, capacity, p[j], p[j + 1], p[j + 2], before, AddRange(Plainly(rng), p, i0, j, d));
    }

    /** The residual group with its marker, and a last possible pad. */
    method Finish(rng: Rand, out0: Bytes, capacity: nat, p: Bytes, ghost before: Bytes, ghost d: Draft) returns (out: Bytes)
      requires At(p, |p|) && Shows(rng, before, out0, d) && |out0| + (if bitCount > 0 then 4 else 1) <= capacity
      modifies rng, this`bitBuf, this`bitCount
      ensures Sane() && bitCount == 0 && Shows(rng, before, out, AddEnd(Plainly(rng), p, d))
    {
      assert p[..|p|] == p;
      out := out0;
      ghost var now := d;
      if bitCount > 0 {
        ResidualGroup(bitBuf, bitCount / 2);
        var group := bitBuf * Shift((6 - bitCount) / 2);
        bitBuf, bitCount := 0, 0;
        out := AppendGroup(rng, out, capacity, group, before, now);
        now := AddGroup(Plainly(rng), group, now);
        out := Emit(rng, out, capacity, Mark, before, now);
        now := Put(now, Mark);
      }
      out := ChancePad(rng, out, capacity, before, now);
    }

    /**
     PackedConn.Write: the payload through a buffer of bounded capacity. On success
     the wire gained exactly what the plain encoder makes of p with the same draws,
     whatever the buffer, the batches and the block path; on failure n counts only
     bytes whose symbols all went out. Either way the bit buffer is empty again.
     */
    method Write(w: Sink, rng: Rand, p: Bytes, oldCapacity: nat)
      returns (capacity: nat, n: nat, ok: bool, ghost syms: seq<Sym>)
      requires Sane() && bitCount == 0
      modifies w, rng, this`bitBuf, this`bitCount
      ensures Sane() && bitCount == 0 && Outcome(p, n, ok, old(w.taken), w.taken, syms)
      ensures ok && p != [] ==> Draft(syms, rng.pos) == Plain(Plainly(rng), p, old(rng.pos))
      ensures p != [] ==> capacity == Max(oldCapacity, Needed(|p|))
    {
      if p == [] { return oldCapacity, 0, true, []; }
      ghost var c := Plainly(rng);
      capacity := Max(oldCapacity, Needed(|p|));
      var out, i0 := WriteHead(rng, capacity, p);
      ghost var head := AddAligned(c, p, Min(|p|, PREFIX), Prefix(c, p, old(rng.pos))).0;
      HeadShows(c, p, old(rng.pos));
      var i, written;
      ghost var sent;
      out, i, written, ok, sent, syms := WriteBlocks(w, rng, capacity, p, out, i0, head);
      if !ok { return capacity, written, false, syms; }
      out := WriteTail(rng, capacity, p, out, i0, i, sent, head);
      ok := SendBatch(w, out, sent);
      if !ok { return capacity, written, false, syms; }
      syms := Plain(c, p, old(rng.pos)).syms;
      PlainEmits(c, p, old(rng.pos));
      ConcatAssoc(old(w.taken), sent, out);
      n := |p|;
    }

    /**
     What a Write leaves on the wire: all of one emission of p, or, if it failed,
     the whole symbols of the first n bytes up to a group boundary, and maybe more.
     */
    ghost predicate Outcome(p: Bytes, n: nat, ok: bool, before: Bytes, after: Bytes, syms: seq<Sym>) {
      && layout.Sized() && n <= |p|
      && (ok ==> n == |p| && after == before + Render(layout, syms))
      && (ok ==> if p == [] then syms == [] else Emits(padPool, p, syms) && Padded(syms, Min(|p|, PREFIX)))
      && (!ok ==> before + Render(layout, syms) <= after && Fed(p[..n]).1 == [] && Strip(syms) == AsSyms(Fed(p[..n]).0))
    }

    /** The protected prefix and the alignment behind it. */
    method WriteHead(rng: Rand, capacity: nat, p: Bytes) returns (out: Bytes, i: nat)
      requires Sane() && bitCount == 0 && p != [] && capacity >= Needed(|p|)
      modifies rng, this`bitBuf, this`bitCount
      ensures At(p, i) && |out| + 8 <= capacity && (bitCount == 0 || i == |p|) && i >= Min(|p|, PREFIX)
      ensures var (d, j) := AddAligned(Plainly(rng), p, Min(|p|, PREFIX), Prefix(Plainly(rng), p, old(rng.pos)));
        i == j && Shows(rng, [], out, d)
    {
      out, i := WriteProtectedPrefix(rng, capacity, p);
      out, i := Align(rng, out, capacity, p, i, Prefix(Plainly(rng), p, old(rng.pos)));
    }

    /** Whole blocks as far as the buffer allows, a batch on the wire whenever it is full. */
    method WriteBlocks(w: Sink, rng: Rand, capacity: nat, p: Bytes, out0: Bytes, i0: nat, ghost d: Draft)
      returns (out: Bytes, i: nat, written: nat, ok: bool, ghost sent: Bytes, ghost whole: seq<Sym>)
      requires At(p, i0) && Shows(rng, [], out0, d) && Shown(Plainly(rng), p, i0, d) && (bitCount == 0 || i0 == |p|)
      requires |out0| + 8 <= capacity && capacity >= Needed(|p|) && i0 >= Min(|p|, PREFIX)
      modifies w, rng
      ensures ok ==> At(p, i) && i0 <= i && Shows(rng, sent, out, AddRange(Plainly(rng), p, i0, i, d)) && |out| + 8 <= capacity
      ensures ok ==> |p| - 3 < i && (bitCount == 0 || i == |p|) && w.taken == old(w.taken) + sent
      ensures old(w.taken) + sent <= w.taken && Sent(p, written, whole, sent) && (!ok ==> bitCount == 0)
    {
      out, i, written, sent, whole := out0, i0, 0, [], [];
      var left := WholeBlocks(|p| - i);
      var end := i + left * 3;
      assert p[..0] == [];
      while i < end
        invariant |out| + 8 <= capacity && end == i + 3 * left && end <= |p| < end + 3
        invariant i0 <= i && At(p, i) && Shows(rng, sent, out, AddRange(Plainly(rng), p, i0, i, d))
        invariant w.taken == old(w.taken) + sent && Sent(p, written, whole, sent)
        decreases left, |out|
      {
        var blocks := Min(BlocksThatFit(capacity - |out| - 8), left);
        if blocks == 0 {
          if out == [] { assert false; }
          ok := SendFull(w, rng, p, i0, i, out, sent, d);
          if !ok { return; }
          ConcatAssoc(old(w.taken), sent, out);
          written, sent, whole, out := i, sent + out, AddRange(Plainly(rng), p, i0, i, d).syms, [];
        } else {
          out := AppendBlocks(rng, out, capacity - 8, p, i0, i, blocks, sent, d);
          i, left := i + 3 * blocks, left - blocks;
        }
      }
      ok := true;
    }

    function BlocksThatFit(space: nat): (blocks: nat)
      ensures Need(blocks) <= space && (blocks == 0 ==> space < 8)
    {
      space / BlockSize()
    }

    /** What went out in whole batches: the symbols of the first bytes, up to a group boundary. */
    ghost predicate Sent(p: Bytes, written: nat, whole: seq<Sym>, sent: Bytes) {
      && layout.Sized() && sent == Render(layout, whole)
      && written <= |p| && Fed(p[..written]).1 == [] && Strip(whole) == AsSyms(Fed(p[..written]).0)
    }

    /** The last one or two bytes and the residual. */
    method WriteTail(rng: Rand, capacity: nat, p: Bytes, out0: Bytes, i0: nat, i1: nat, ghost sent: Bytes, ghost d: Draft)
      returns (out: Bytes)
      requires At(p, i1) && i0 <= i1 && Shows(rng, sent, out0, AddRange(Plainly(rng), p, i0, i1, d)) && |out0| + 8 <= capacity
      requires |p| - 3 < i1 && (bitCount == 0 || i1 == |p|)
      modifies rng, this`bitBuf, this`bitCount
      ensures Sane() && bitCount == 0 && Shows(rng, sent, out, AddEnd(Plainly(rng), p, AddRange(Plainly(rng), p, i0, |p|, d)))
    {
      out := out0;
      var i := i1;
      while i < |p|
        invariant |p| - 3 < i <= |p| && i0 <= i && At(p, i) && Shows(rng, sent, out, AddRange(Plainly(rng), p, i0, i, d))
        invariant |p| - i == 2 ==> bitCount == 0
        invariant |out| + TailRoom(|p| - i, bitCount) <= capacity
      {
        out := FeedNext(rng, out, capacity, p, i, sent, AddRange(Plainly(rng), p, i0, i, d));
        i := i + 1;
      }
      out := Finish(rng, out, capacity, p, sent, AddRange(Plainly(rng), p, i0, |p|, d));
    }

    /** A full buffer goes out: what has been sent are the whole symbols of the first i bytes. */
    method SendFull(w: Sink, ghost rng: Rand, p: Bytes, ghost i0: nat, ghost i: nat, out: Bytes, ghost sent: Bytes, ghost d: Draft)
      returns (ok: bool)
      requires At(p, i) && bitCount == 0 && i0 <= i && Shown(Plainly(rng), p, i0, d)
      requires Shows(rng, sent, out, AddRange(Plainly(rng), p, i0, i, d))
      modifies w
      ensures old(w.taken) <= w.taken && (ok ==> w.taken == old(w.taken) + out)
      ensures var now := AddRange(Plainly(rng), p, i0, i, d); Shows(rng, sent + out, [], now) && Sent(p, i, now.syms, sent + out)
    {
      ok := SendBatch(w, out, sent);
      RangeShows(Plainly(rng), p, i0, i, d);
      Batched(rng, sent, out, AddRange(Plainly(rng), p, i0, i, d));
    }

    lemma Batched(rng: Rand, sent: Bytes, out: Bytes, d: Draft)
      requires Shows(rng, sent, out, d)
      ensures Shows(rng, sent + out, [], d)
    {
      assert sent + out + [] == sent + out;
    }

    /** Sending one buffer behind what went out before. */
    method SendBatch(w: Sink, out: Bytes, ghost sent: Bytes) returns (ok: bool)
      modifies w
      ensures old(w.taken) <= w.taken && (ok ==> w.taken == old(w.taken) + out)
    {
      ok := WriteEncoded(w, out);
      assert ok ==> out[..|out|] == out;
    }
  }

  lemma PrefixStarts(c: Coder, p: Bytes, pos: nat, gap: nat)
    requires c.pool != [] && gap == Gap(c, Opening(c, pos).pos)
    ensures var o := Opening(c, pos); Prefix(c, p, pos) == AddPrefix(c, p, 0, 0, gap, Draft(o.syms, o.pos + 1))
  {
  }

  lemma HeadShows(c: Coder, p: Bytes, pos: nat)
    requires c.pool != [] && p != []
    ensures var (d, i) := AddAligned(c, p, Min(|p|, PREFIX), Prefix(c, p, pos)); Shown(c, p, i, d)
  {
    PrefixEmits(c, p, pos);
    AlignedShows(c, p, Min(|p|, PREFIX), Prefix(c, p, pos));
  }

  lemma {:induction false} LeftOver(gs: seq<Group>, hs: seq<Group>, ds: seq<Digit>)
    ensures FeedDigits(gs, ds).1 == FeedDigits(hs, ds).1
    decreases |ds|
  {
    if |ds| >= 3 { LeftOver(gs + [ToGroup(ds)], hs + [ToGroup(ds)], ds[3..]); }
  }

  function WholeBlocks(n: nat): (blocks: nat)
    ensures 3 * blocks <= n < 3 * blocks + 3
  {
    n / 3
  }

  /** The capacity Write asks for. */
  function Needed(n: nat): (c: nat)
    ensures 0 < n < 15 ==> c >= 3 * n + 64
    ensures n >= 15 ==> c >= 109
  {
    Min(Min(n, MAX_WRITE) * 3 + 64, MAX_WRITE)
  }

  /** What the last bytes, the residual, the marker and a trailing pad can still take. */
  function TailRoom(left: int, bitCount: nat): nat {
    if left <= 0 then (if bitCount > 0 then 4 else 1)
    else if left == 1 then (if bitCount == 0 then 6 else if bitCount == 2 then 6 else 8)
    else 8
  }

  /** Room that aligning may still need. */
  function Slack(bitCount: nat): nat {
    if bitCount == 0 then 0 else if bitCount == 2 then 8 else 5
  }

  /** The bits left after one more byte. */
  function Next(bitCount: nat): nat {
    if bitCount == 0 then 2 else if bitCount == 2 then 4 else 0
  }

  /** How much one byte can add to the buffer: two bytes for each group it completes. */
  function Growth(bitCount: int): nat {
    if bitCount >= 4 then 4 else if bitCount >= -2 then 2 else 0
  }

  /** Four to the power of n. */
  function Bound(n: nat): nat
    requires n <= 6
  {
    if n <= 3 then Shift(n) else 64 * Shift(n - 3)
  }

  lemma PushBound(v: nat, n: nat, b: byte)
    requires n <= 2 && v < Bound(n)
    ensures v * 256 + b < Bound(n + 4)
  {
    if n == 0 {} else if n == 1 {} else {}
  }

  /** The group above the low n digits. */
  lemma TopGroup(v: nat, n: nat)
    requires n <= 3 && v < Bound(n + 3)
    ensures v / Shift(n) < 64 && v % Shift(n) < Bound(n)
    ensures ToDigits(v, n + 3) == GroupDigits(v / Shift(n)) + ToDigits(v % Shift(n), n)
  {
    if n == 0 {} else if n == 1 {} else if n == 2 {} else {}
    SplitDigits(v, 3, n);
    ThreeDigits(v / Shift(n));
  }

  /** Shifting the left-over bits up is padding their digits with zeros. */
  lemma ResidualGroup(v: nat, n: nat)
    requires n == 1 || n == 2
    requires v < Shift(n)
    ensures v * Shift(3 - n) < 64 && ToGroup(Zeros(ToDigits(v, n))) == v * Shift(3 - n)
  {
    if n == 1 {
      Digit1(v);
    } else {
      Digit2(v);
    }
  }

  lemma Digit1(v: nat)
    requires v < 4
    ensures ToDigits(v, 1) == [v] && Zeros([v]) == [v, 0, 0] && ToGroup([v, 0, 0]) == v * 16
  {
    assert v % 4 == v;
    var none := ToDigits(v / 4, 0);
    assert none == [] && ToDigits(v, 1) == none + [v % 4];
  }

  lemma Digit2(v: nat)
    requires v < 16
    ensures ToDigits(v, 2) == [v / 4, v % 4] && Zeros([v / 4, v % 4]) == [v / 4, v % 4, 0]
    ensures ToGroup([v / 4, v % 4, 0]) == v * 4
  {
    assert ToDigits(v, 2) == ToDigits(v / 4, 1) + [v % 4];
    Digit1(v / 4);
  }

  lemma GroupBack(g: Group, rest: seq<Digit>)
    ensures ToGroup(GroupDigits(g) + rest) == g && (GroupDigits(g) + rest)[3..] == rest
  {
    var d := GroupDigits(g) + rest;
    assert d[0] == g / 16 && d[1] == (g / 4) % 4 && d[2] == g % 4 && d[3..] == rest;
    ThreeSum(g);
  }

  lemma ThreeSum(g: Group)
    ensures 16 * (g / 16) + 4 * ((g / 4) % 4) + g % 4 == g
  {
  }
}
