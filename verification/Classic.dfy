/**
 The classic codec: four hints per byte in random order with random padding,
 written through a bounded buffer and decoded with a four-hint fast path.
 */
module Classic {
  import opened Common
  import opened Layout
  import opened ClassicTable

  const MAX_WRITE := 32 * 1024
  const PROB_ONE := 0x1_0000_0000

  // ---------------------------------------------------------------------------
  // What a wire means

  /** The hint bytes of a wire, padding removed. */
  function HintsOf(l: ByteLayout, wire: Bytes): Bytes
    requires l.Sized()
  {
    if wire == [] then []
    else
      var init := HintsOf(l, wire[..|wire| - 1]);
      if l.IsHint(wire[|wire| - 1]) then init + [wire[|wire| - 1]] else init
  }

  lemma {:induction false} HintsOfConcat(l: ByteLayout, a: Bytes, b: Bytes)
    requires l.Sized()
    ensures HintsOf(l, a + b) == HintsOf(l, a) + HintsOf(l, b)
    decreases |b|
  {
    if b == [] {
      assert a + b == a;
    } else {
      assert (a + b)[..|a + b| - 1] == a + b[..|b| - 1];
      HintsOfConcat(l, a, b[..|b| - 1]);
    }
  }

  /** The four hints of byte number i are a stored puzzle of that byte, in some order. */
  ghost predicate ByteEncoded(t: Table, hints: Bytes, p: Bytes, i: nat)
    requires |hints| == 4 * |p| && i < |p| && |t.encodeTable| == 256
  {
    exists k :: 0 <= k < |t.encodeTable[p[i]]| && SameUpToOrder(hints[4 * i..4 * i + 4], t.encodeTable[p[i]][k])
  }

  /** The hints carry exactly the payload p: for each byte, in order, those of one of its puzzles. */
  ghost predicate EncodesHints(t: Table, hints: Bytes, p: Bytes)
    requires |t.encodeTable| == 256
  {
    |hints| == 4 * |p| && forall i | 0 <= i < |p| :: ByteEncoded(t, hints, p, i)
  }

  /** The wire carries exactly the payload p, wherever padding was put. */
  ghost predicate Encodes(t: Table, wire: Bytes, p: Bytes)
    requires t.layout.Sized() && |t.encodeTable| == 256
  {
    EncodesHints(t, HintsOf(t.layout, wire), p)
  }

  lemma EncodesConcat(t: Table, a: Bytes, p: Bytes, b: Bytes, q: Bytes)
    requires t.layout.Sized() && |t.encodeTable| == 256 && Encodes(t, a, p) && Encodes(t, b, q)
    ensures Encodes(t, a + b, p + q)
  {
    HintsOfConcat(t.layout, a, b);
    var h, g := HintsOf(t.layout, a), HintsOf(t.layout, b);
    forall i | 0 <= i < |p + q| ensures ByteEncoded(t, h + g, p + q, i) {
      if i < |p| {
        assert ByteEncoded(t, h, p, i) && (p + q)[i] == p[i];
        assert (h + g)[4 * i..4 * i + 4] == h[4 * i..4 * i + 4];
      } else {
        var j := i - |p|;
        assert ByteEncoded(t, g, q, j) && (p + q)[i] == q[j];
        assert (h + g)[4 * i..4 * i + 4] == g[4 * j..4 * j + 4];
      }
    }
  }

  // ---------------------------------------------------------------------------
  // Decoding one hint at a time

  datatype Decoded = Decoded(out: Bytes, buf: Bytes, consumed: nat, missed: bool)

  /** What decoding has done so far, and what it does from here, as one result. */
  function Then(out: Bytes, consumed: nat, r: Decoded): Decoded {
    Decoded(out + r.out, r.buf, consumed + r.consumed, r.missed)
  }

  lemma ThenThen(a: Bytes, m: nat, b: Bytes, n: nat, r: Decoded)
    ensures Then(a, m, Then(b, n, r)) == Then(a + b, m + n, r)
  {
    ConcatAssoc(a, b, r.out);
  }

  /** At most `size` bytes out of a chunk, with up to three hints left over from before. */
  function Slow(t: Table, buf: Bytes, chunk: Bytes, size: nat): (r: Decoded)
    requires t.layout.Sized() && |buf| < 4
    ensures r.consumed <= |chunk| && |r.out| <= size && (!r.missed ==> |r.buf| < 4)
    decreases |chunk|
  {
    if chunk == [] || size == 0 then Decoded([], buf, 0, false)
    else if !t.layout.IsHint(chunk[0]) then Then([], 1, Slow(t, buf, chunk[1..], size))
    else if |buf| < 3 then Then([], 1, Slow(t, buf + [chunk[0]], chunk[1..], size))
    else
      var key := PackHints(buf + [chunk[0]]);
      if key !in t.decodeMap then Decoded([], buf + [chunk[0]], 1, true)
      else Then([t.decodeMap[key]], 1, Slow(t, [], chunk[1..], size - 1))
  }

  /** Four hints in a row, with nothing left over, are one step of four. */
  lemma FourHints(t: Table, chunk: Bytes, size: nat)
    requires t.layout.Sized() && |chunk| >= 4 && size > 0
    requires forall i | 0 <= i < 4 :: t.layout.IsHint(chunk[i])
    ensures var key := PackHints(chunk[..4]);
      Slow(t, [], chunk, size) ==
        if key in t.decodeMap then Then([t.decodeMap[key]], 4, Slow(t, [], chunk[4..], size - 1))
        else Decoded([], chunk[..4], 4, true)
  {
    var c1, c2, c3 := chunk[1..], chunk[2..], chunk[3..];
    assert c1[1..] == c2 && c2[1..] == c3 && c3[1..] == chunk[4..];
    assert [] + [chunk[0]] == [chunk[0]] && [chunk[0]] + [c1[0]] == chunk[..2] && chunk[..2] + [c2[0]] == chunk[..3];
    assert chunk[..3] + [c3[0]] == chunk[..4];
    var s1, s2, s3 := Slow(t, [chunk[0]], c1, size), Slow(t, chunk[..2], c2, size), Slow(t, chunk[..3], c3, size);
    assert Slow(t, [], chunk, size) == Then([], 1, s1);
    assert s1 == Then([], 1, s2);
    assert s2 == Then([], 1, s3);
  }

  /** The receiving side of Conn: leftover hints between calls. */
  class Conn {
    const table: Table
    var hintBuf: Bytes

    constructor (table: Table)
      ensures this.table == table && hintBuf == []
    {
      this.table, hintBuf := table, [];
    }

    /**
     decode refines the one-hint-at-a-time decoder for every chunk and every
     destination size; after a map miss both report it with the same output.
     */
    method Decode(p: array<byte>, chunk: Bytes) returns (outN: nat, consumed: nat, missed: bool)
      requires table.layout.Sized() && |hintBuf| < 4
      modifies this`hintBuf, p
      ensures outN <= p.Length && consumed <= |chunk|
      ensures var r := Slow(table, old(hintBuf), chunk, p.Length);
        && missed == r.missed && p[..outN] == r.out
        && (!missed ==> consumed == r.consumed && hintBuf == r.buf)
      ensures forall k | outN <= k < p.Length :: p[k] == old(p[k])
    {
      outN, consumed, missed := 0, 0, false;
      ghost var goal := Slow(table, hintBuf, chunk, p.Length);
      assert chunk[0..] == chunk;
      while consumed < |chunk| && outN < p.Length
        invariant outN <= p.Length && consumed <= |chunk| && |hintBuf| < 4
        invariant goal == Then(p[..outN], consumed, Slow(table, hintBuf, chunk[consumed..], p.Length - outN))
        invariant forall k | outN <= k < p.Length :: p[k] == old(p[k])
        decreases |chunk| - consumed
      {
        var i := consumed;
        ghost var rest, done := chunk[i..], p[..outN];
        ghost var new_;
        if |hintBuf| == 0 && i + 3 < |chunk| && FourAt(chunk, i) {
          assert rest[..4] == chunk[i..i + 4] && rest[4..] == chunk[i + 4..];
          outN, missed, new_ := TakeFour(p, outN, chunk[i..i + 4], rest);
          if missed { return outN, consumed, true; }
          consumed := consumed + 4;
        } else {
          outN, missed, new_ := TakeOne(p, outN, chunk[i], rest);
          consumed := consumed + 1;
          if missed { return outN, consumed, true; }
          assert rest[1..] == chunk[i + 1..];
        }
        ghost var after := Slow(table, hintBuf, chunk[consumed..], p.Length - outN);
        assert goal == Then(done, i, Then(new_, consumed - i, after));
        ThenThen(done, i, new_, consumed - i, after);
      }
    }

    /** The fast path: four hints at once. */
    method TakeFour(p: array<byte>, outN: nat, four: Hints, ghost rest: Bytes) returns (n: nat, missed: bool, ghost out: Bytes)
      requires table.layout.Sized() && hintBuf == [] && outN < p.Length && |rest| >= 4 && rest[..4] == four
      requires forall k | 0 <= k < 4 :: table.layout.IsHint(rest[k])
      modifies p
      ensures outN <= n <= p.Length && n == outN + |out| && p[..n] == old(p[..outN]) + out
      ensures forall k | n <= k < p.Length :: p[k] == old(p[k])
      ensures missed ==> n == outN && Slow(table, [], rest, p.Length - outN) == Decoded([], four, 4, true)
      ensures !missed ==>
        Slow(table, [], rest, p.Length - outN) == Then(out, 4, Slow(table, [], rest[4..], p.Length - n))
    {
      FourHints(table, rest, p.Length - outN);
      var key := PackHints(four);
      if key !in table.decodeMap { return outN, true, []; }
      p[outN] := table.decodeMap[key];
      return outN + 1, false, [table.decodeMap[key]];
    }

    /** The slow path: one wire byte, a hint or padding. */
    method TakeOne(p: array<byte>, outN: nat, b: byte, ghost rest: Bytes) returns (n: nat, missed: bool, ghost out: Bytes)
      requires table.layout.Sized() && |hintBuf| < 4 && outN < p.Length && rest != [] && rest[0] == b
      modifies this`hintBuf, p
      ensures outN <= n <= p.Length && n == outN + |out| && p[..n] == old(p[..outN]) + out
      ensures forall k | n <= k < p.Length :: p[k] == old(p[k])
      ensures var before := Slow(table, old(hintBuf), rest, p.Length - outN);
        && (missed ==> n == outN && before.missed && before.out == [])
        && (!missed ==> |hintBuf| < 4 && before == Then(out, 1, Slow(table, hintBuf, rest[1..], p.Length - n)))
    {
      if !table.layout.IsHint(b) { return outN, false, []; }
      hintBuf := hintBuf + [b];
      if |hintBuf| != 4 { return outN, false, []; }
      var key := PackHints(hintBuf);
      if key !in table.decodeMap { return outN, true, []; }
      p[outN] := table.decodeMap[key];
      hintBuf := [];
      return outN + 1, false, [table.decodeMap[key]];
    }

    predicate FourAt(chunk: Bytes, i: nat)
      requires table.layout.Sized() && i + 3 < |chunk|
    {
      && table.layout.IsHint(chunk[i]) && table.layout.IsHint(chunk[i + 1])
      && table.layout.IsHint(chunk[i + 2]) && table.layout.IsHint(chunk[i + 3])
    }
  }

  // ---------------------------------------------------------------------------
  // Encoding

  type Draw = u: nat | u < PROB_ONE

  /** The draws come from a tape that is a parameter; past its end the last one repeats. */
  function Drawn(tape: seq<Draw>, k: nat): Draw {
    if k < |tape| then tape[k] else if tape == [] then 0 else tape[|tape| - 1]
  }

  /** fastIntnFromUint32. */
  function Scaled(u: Draw, n: nat): (k: nat)
    ensures n > 0 ==> k < n
  {
    if n == 0 then 0
    else
      ScaleDown(u, n);
      u * n / PROB_ONE
  }

  /** The codec's random source. */
  class Rand {
    const tape: seq<Draw>
    var pos: nat

    constructor (tape: seq<Draw>)
      ensures this.tape == tape && pos == 0
    {
      this.tape, pos := tape, 0;
    }

    method Uint32() returns (u: Draw)
      modifies this
      ensures u == Drawn(tape, old(pos)) && pos == old(pos) + 1
    {
      u := Drawn(tape, pos);
      pos := pos + 1;
    }

    /** With nothing to choose no draw is used up. */
    method Intn(n: nat) returns (k: nat)
      modifies this
      ensures n <= 1 ==> k == 0 && pos == old(pos)
      ensures n > 1 ==> k == Scaled(Drawn(tape, old(pos)), n) && pos == old(pos) + 1
      ensures n > 0 ==> k < n
    {
      if n <= 1 { return 0; }
      var u := Uint32();
      return Scaled(u, n);
    }
  }

  lemma ScaleDown(u: nat, n: nat)
    requires u < PROB_ONE && n > 0
    ensures u * n / PROB_ONE < n
  {
    assert u * n < PROB_ONE * n by { Less(u, PROB_ONE, n); }
  }

  lemma Less(a: nat, b: nat, n: nat)
    requires a < b && n > 0
    ensures a * n < b * n
  {
  }

  const PERM4: seq<seq<nat>> := [
    [0, 1, 2, 3], [0, 1, 3, 2], [0, 2, 1, 3], [0, 2, 3, 1], [0, 3, 1, 2], [0, 3, 2, 1],
    [1, 0, 2, 3], [1, 0, 3, 2], [1, 2, 0, 3], [1, 2, 3, 0], [1, 3, 0, 2], [1, 3, 2, 0],
    [2, 0, 1, 3], [2, 0, 3, 1], [2, 1, 0, 3], [2, 1, 3, 0], [2, 3, 0, 1], [2, 3, 1, 0],
    [3, 0, 1, 2], [3, 0, 2, 1], [3, 1, 0, 2], [3, 1, 2, 0], [3, 2, 0, 1], [3, 2, 1, 0]]

  /** Four different indices below four. */
  predicate IsPerm(q: seq<nat>) {
    |q| == 4 && q[0] < 4 && q[1] < 4 && q[2] < 4 && q[3] < 4
    && q[0] != q[1] && q[0] != q[2] && q[0] != q[3] && q[1] != q[2] && q[1] != q[3] && q[2] != q[3]
  }

  lemma Perm4IsPerms(i: nat)
    requires i < 24
    ensures |PERM4| == 24 && IsPerm(PERM4[i])
  {
  }

  function Permute(h: Hints, q: seq<nat>): Hints
    requires IsPerm(q)
  {
    [h[q[0]], h[q[1]], h[q[2]], h[q[3]]]
  }

  lemma Permuted(h: Hints, q: seq<nat>)
    requires IsPerm(q)
    ensures SameUpToOrder(Permute(h, q), h)
  {
  }

  lemma PermutedHints(l: ByteLayout, h: Hints, q: seq<nat>)
    requires l.Sized() && IsPerm(q) && forall i | 0 <= i < 4 :: l.IsHint(h[i])
    ensures forall i | 0 <= i < 4 :: l.IsHint(Permute(h, q)[i])
  {
  }

  /** append on a slice whose capacity was fixed up front: room for the byte is the caller's obligation. */
  function Append(out: Bytes, capacity: nat, b: byte): Bytes
    requires |out| < capacity
  {
    out + [b]
  }

  /** The most wire bytes one payload byte can take. */
  function Expansion(threshold: nat): nat { if threshold == 0 then 4 else 9 }

  /** A padding byte is put in with the codec's probability, which may be never or always. */
  method MaybePad(rng: Rand, l: ByteLayout, threshold: nat, dst: Bytes, capacity: nat) returns (out: Bytes)
    requires l.HintsOk() && (threshold > 0 ==> |dst| < capacity)
    modifies rng
    ensures dst <= out && HintsOf(l, out) == HintsOf(l, dst)
    ensures |out| <= |dst| + (if threshold == 0 then 0 else 1)
    ensures |out| > |dst| <==> Drawn(rng.tape, old(rng.pos)) < threshold
    ensures rng.pos == old(rng.pos) + (if 0 < threshold < PROB_ONE then 1 else 0)
                     + (if |out| > |dst| && |l.paddingPool| > 1 then 1 else 0)
    ensures |out| > |dst| ==> out == dst + [l.paddingPool[
      if |l.paddingPool| == 1 then 0 else Scaled(Drawn(rng.tape, old(rng.pos) + (if threshold < PROB_ONE then 1 else 0)), |l.paddingPool|)]]
  {
    out := dst;
    if threshold == 0 { return; }
    if threshold < PROB_ONE {
      var u := rng.Uint32();
      if u >= threshold { return; }
    }
    var k := rng.Intn(|l.paddingPool|);
    assert l.paddingPool[k] in l.paddingPool;
    out := Append(dst, capacity, l.paddingPool[k]);
  }

  /** One of the byte's puzzles, in one of the 24 orders. */
  method DrawHints(rng: Rand, t: Table, b: byte) returns (h: Hints, ghost k: nat)
    requires GoodTable(t)
    modifies rng
    ensures k < |t.encodeTable[b]| && SameUpToOrder(h, t.encodeTable[b][k])
    ensures forall i | 0 <= i < 4 :: t.layout.IsHint(h[i])
  {
    var n := rng.Intn(|t.encodeTable[b]|);
    k := n;
    var puzzle := t.encodeTable[b][n];
    var m := rng.Intn(24);
    Perm4IsPerms(m);
    h := Permute(puzzle, PERM4[m]);
    Permuted(puzzle, PERM4[m]);
    PermutedHints(t.layout, puzzle, PERM4[m]);
  }

  /** The hints one by one, each with or without a padding byte before it. */
  method AppendHints(rng: Rand, l: ByteLayout, threshold: nat, dst: Bytes, capacity: nat, h: Hints) returns (out: Bytes)
    requires l.HintsOk() && forall i | 0 <= i < 4 :: l.IsHint(h[i])
    requires |dst| + (if threshold == 0 then 4 else 8) <= capacity
    modifies rng
    ensures dst <= out && |out| <= |dst| + (if threshold == 0 then 4 else 8)
    ensures HintsOf(l, out) == HintsOf(l, dst) + h
  {
    out := dst;
    for j := 0 to 4
      invariant dst <= out && |out| <= |dst| + (if threshold == 0 then j else 2 * j)
      invariant HintsOf(l, out) == HintsOf(l, dst) + h[..j]
    {
      out := MaybePad(rng, l, threshold, out, capacity);
      out := Append(out, capacity, h[j]);
      assert h[..j + 1] == h[..j] + [h[j]];
    }
    assert h[..4] == h;
  }

  /** One payload byte: maybe padding, then the hints. */
  method AppendByte(rng: Rand, t: Table, threshold: nat, dst: Bytes, capacity: nat, b: byte)
    returns (out: Bytes, ghost h: Hints, ghost k: nat)
    requires GoodTable(t) && |dst| + Expansion(threshold) <= capacity
    modifies rng
    ensures dst <= out && |out| <= |dst| + Expansion(threshold)
    ensures k < |t.encodeTable[b]| && SameUpToOrder(h, t.encodeTable[b][k])
    ensures HintsOf(t.layout, out) == HintsOf(t.layout, dst) + h
  {
    out := MaybePad(rng, t.layout, threshold, dst, capacity);
    var hints;
    hints, k := DrawHints(rng, t, b);
    h := hints;
    out := AppendHints(rng, t.layout, threshold, out, capacity, hints);
  }

  /** What AppendByte adds encodes the one byte. */
  lemma OnePiece(t: Table, before: Bytes, piece: Bytes, b: byte, h: Hints, k: nat)
    requires GoodTable(t) && k < |t.encodeTable[b]| && SameUpToOrder(h, t.encodeTable[b][k])
    requires HintsOf(t.layout, before + piece) == HintsOf(t.layout, before) + h
    ensures Encodes(t, piece, [b])
  {
    HintsOfConcat(t.layout, before, piece);
    SplitPrefix(HintsOf(t.layout, before), HintsOf(t.layout, piece), HintsOf(t.layout, before), h, 0);
    assert h[4 * 0..4 * 0 + 4] == h && h[0..] == h;
    assert [b][0] == b && SameUpToOrder(h[4 * 0..4 * 0 + 4], t.encodeTable[b][k]);
    assert ByteEncoded(t, h, [b], 0);
  }

  /** appendSudokuPayload: whatever is drawn, exactly the payload is appended, inside the space reserved for it. */
  method AppendPayload(rng: Rand, t: Table, threshold: nat, dst: Bytes, capacity: nat, p: Bytes)
    returns (out: Bytes)
    requires GoodTable(t) && |dst| + Expansion(threshold) * |p| <= capacity
    modifies rng
    ensures dst <= out && |out| <= |dst| + Expansion(threshold) * |p| && Encodes(t, out[|dst|..], p)
  {
    out := dst;
    ghost var wire: Bytes := [];
    for i := 0 to |p|
      invariant out == dst + wire && |wire| <= Expansion(threshold) * i
      invariant Encodes(t, wire, p[..i])
    {
      ghost var before := out;
      assert Expansion(threshold) * (i + 1) <= Expansion(threshold) * |p|;
      ghost var h, k;
      out, h, k := AppendByte(rng, t, threshold, out, capacity, p[i]);
      ghost var piece := out[|before|..];
      assert out == before + piece;
      OnePiece(t, before, piece, p[i], h, k);
      EncodesConcat(t, wire, p[..i], piece, [p[i]]);
      assert p[..i + 1] == p[..i] + [p[i]];
      ConcatAssoc(dst, wire, piece);
      wire := wire + piece;
    }
    assert p[..|p|] == p && out[|dst|..] == wire;
  }

  /** The connection below: it takes `room` more bytes and then fails in the middle of a write. */
  class Sink {
    var taken: Bytes
    var room: nat

    constructor (room: nat)
      ensures taken == [] && this.room == room
    {
      taken, this.room := [], room;
    }

    method WriteFull(b: Bytes) returns (ok: bool)
      modifies this
      ensures ok == (|b| <= old(room)) && room == old(room) - Min(|b|, old(room))
      ensures taken == old(taken) + b[..Min(|b|, old(room))]
    {
      var n := Min(|b|, room);
      taken, room := taken + b[..n], room - n;
      return n == |b|;
    }
  }

  /** Slices of at most MAX_WRITE bytes, as if it were one write. */
  method WriteEncoded(w: Sink, p: Bytes) returns (ok: bool)
    modifies w
    ensures ok == (|p| <= old(w.room)) && w.room == old(w.room) - Min(|p|, old(w.room))
    ensures w.taken == old(w.taken) + p[..Min(|p|, old(w.room))]
  {
    var done := 0;
    while done < |p|
      invariant 0 <= done <= |p| && w.room == old(w.room) - done
      invariant w.taken == old(w.taken) + p[..done]
    {
      var n := Min(|p| - done, MAX_WRITE);
      ghost var room := w.room;
      var written := w.WriteFull(p[done..done + n]);
      assert p[..done + Min(n, room)] == p[..done] + p[done..done + n][..Min(n, room)];
      if !written { return false; }
      assert p[done..done + n][..n] == p[done..done + n];
      done := done + n;
    }
    assert p[..done] == p;
    return true;
  }

  /**
   writeSudokuPayload: bounded batches of one buffer. On success the whole
   payload is on the wire; on an error n bytes of it certainly are, those of the
   batches written before. The buffer never grows past its capacity.
   */
  method WritePayload(w: Sink, rng: Rand, t: Table, threshold: nat, p: Bytes, oldCapacity: nat)
    returns (capacity: nat, n: nat, ok: bool, ghost wire: Bytes)
    requires GoodTable(t)
    modifies w, rng
    ensures capacity == Max(oldCapacity, Min(Min(|p|, MAX_WRITE) * Expansion(threshold) + 1, MAX_WRITE))
    ensures n <= |p| && Encodes(t, wire, p[..n]) && old(w.taken) + wire <= w.taken
    ensures ok ==> n == |p| && w.taken == old(w.taken) + wire
  {
    var expansion := Expansion(threshold);
    var needed := Min(Min(|p|, MAX_WRITE) * expansion + 1, MAX_WRITE);
    capacity := Max(oldCapacity, needed);
    var out: Bytes := [];
    var total: nat, buffered: nat := 0, 0;
    ghost var batch: Bytes := [];
    wire := [];
    while total + buffered < |p|
      invariant total + buffered <= |p| && |out| < capacity && out == batch
      invariant capacity == Max(oldCapacity, needed) && w.taken == old(w.taken) + wire
      invariant Encodes(t, wire, p[..total]) && Encodes(t, batch, p[total..total + buffered])
      decreases |p| - total - buffered, |out|
    {
      var start := total + buffered;
      var k := Min(|p| - start, (capacity - |out| - 1) / expansion);
      if k == 0 {
        if out == [] { Enough(capacity, expansion); assert false; }
        ghost var before := w.taken;
        var written := WriteEncoded(w, out);
        if !written {
          return capacity, total, false, wire;
        }
        assert out[..|out|] == out;
        EncodesConcat(t, wire, p[..total], batch, p[total..start]);
        assert p[..start] == p[..total] + p[total..start];
        ConcatAssoc(old(w.taken), wire, out);
        wire := wire + out;
        total, buffered, out, batch := total + buffered, 0, [], [];
        assert p[total..total + 0] == [];
      } else {
        ghost var before := out;
        out := AppendPayload(rng, t, threshold, out, capacity, p[start..start + k]);
        EncodesConcat(t, batch, p[total..start], out[|before|..], p[start..start + k]);
        assert p[total..start] + p[start..start + k] == p[total..start + k];
        batch := batch + out[|before|..];
        buffered := buffered + k;
      }
    }
    out := MaybePad(rng, t.layout, threshold, out, capacity);
    var written := WriteEncoded(w, out);
    if !written {
      return capacity, total, false, wire;
    }
    assert out[..|out|] == out && p[..|p|] == p && p[..total] + p[total..total + buffered] == p;
    EncodesConcat(t, wire, p[..total], out, p[total..total + buffered]);
    ConcatAssoc(old(w.taken), wire, out);
    return capacity, |p|, true, wire + out;
  }

  function Max(a: nat, b: nat): nat { if a >= b then a else b }

  lemma Enough(capacity: nat, expansion: nat)
    requires expansion == 4 || expansion == 9
    requires (capacity - 1) / expansion == 0
    ensures capacity < expansion + 1
  {
  }

  // ---------------------------------------------------------------------------
  // Round trip

  /** Leftover hints and what is still on the wire carry exactly the payload q. */
  ghost predicate Pending(t: Table, buf: Bytes, wire: Bytes, q: Bytes)
    requires t.layout.Sized() && |t.encodeTable| == 256
  {
    |buf| < 4 && EncodesHints(t, buf + HintsOf(t.layout, wire), q)
  }

  lemma HintsOfCons(l: ByteLayout, wire: Bytes)
    requires l.Sized() && wire != []
    ensures HintsOf(l, wire) == (if l.IsHint(wire[0]) then [wire[0]] else []) + HintsOf(l, wire[1..])
  {
    assert wire == [wire[0]] + wire[1..];
    HintsOfConcat(l, [wire[0]], wire[1..]);
    assert HintsOf(l, [wire[0]]) == if l.IsHint(wire[0]) then [wire[0]] else [];
  }

  lemma SliceShift(h: Bytes, k: nat)
    requires k + 8 <= |h|
    ensures h[4..][k..k + 4] == h[k + 4..k + 8]
  {
  }

  /** The first four hints are those of the first payload byte. */
  lemma FirstByte(t: Table, hints: Bytes, q: Bytes)
    requires GoodTable(t) && EncodesHints(t, hints, q) && |hints| >= 4
    ensures q != [] && PackHints(hints[..4]) in t.decodeMap && t.decodeMap[PackHints(hints[..4])] == q[0]
    ensures EncodesHints(t, hints[4..], q[1..])
  {
    assert ByteEncoded(t, hints, q, 0);
    assert hints[4 * 0..4 * 0 + 4] == hints[..4];
    var k :| 0 <= k < |t.encodeTable[q[0]]| && SameUpToOrder(hints[..4], t.encodeTable[q[0]][k]);
    KeyIsOrderFree(hints[..4], t.encodeTable[q[0]][k]);
    forall i | 0 <= i < |q[1..]| ensures ByteEncoded(t, hints[4..], q[1..], i) {
      assert ByteEncoded(t, hints, q, i + 1);
      SliceShift(hints, 4 * i);
    }
  }

  /** The result of a decode call: no miss, a prefix of the payload, and the rest stays pending. */
  ghost predicate Faithful(t: Table, r: Decoded, wire: Bytes, c: nat, size: nat, q: Bytes)
    requires t.layout.Sized() && |t.encodeTable| == 256 && c <= |wire|
  {
    && !r.missed && r.out <= q && r.consumed <= c && Pending(t, r.buf, wire[r.consumed..], q[|r.out|..])
    && (size > |r.out| ==> r.consumed == c)
  }

  lemma FaithfulCons(t: Table, new_: Bytes, r: Decoded, wire: Bytes, c: nat, size: nat, q: Bytes)
    requires t.layout.Sized() && |t.encodeTable| == 256 && 0 < c <= |wire| && |new_| <= size && new_ <= q
    requires Faithful(t, r, wire[1..], c - 1, size - |new_|, q[|new_|..])
    ensures Faithful(t, Then(new_, 1, r), wire, c, size, q)
  {
    assert wire[1..][r.consumed..] == wire[r.consumed + 1..];
    assert q[|new_|..][|r.out|..] == q[|new_ + r.out|..];
    assert q == new_ + q[|new_|..];
  }

  /** One decode call on any chunk of the wire. */
  lemma {:induction false} SlowIsFaithful(t: Table, buf: Bytes, wire: Bytes, c: nat, size: nat, q: Bytes)
    requires GoodTable(t) && c <= |wire| && Pending(t, buf, wire, q)
    ensures Faithful(t, Slow(t, buf, wire[..c], size), wire, c, size, q)
    decreases c
  {
    if c == 0 || size == 0 {
      assert wire[0..] == wire && q[0..] == q;
    } else {
      var b, tail := wire[0], wire[1..];
      HintsOfCons(t.layout, wire);
      assert wire[..c][1..] == tail[..c - 1] && q[0..] == q;
      if !t.layout.IsHint(b) {
        assert buf + ([] + HintsOf(t.layout, tail)) == buf + HintsOf(t.layout, tail);
        SlowIsFaithful(t, buf, tail, c - 1, size, q);
        FaithfulCons(t, [], Slow(t, buf, tail[..c - 1], size), wire, c, size, q);
      } else {
        ConcatAssoc(buf, [b], HintsOf(t.layout, tail));
        if |buf| < 3 {
          SlowIsFaithful(t, buf + [b], tail, c - 1, size, q);
          FaithfulCons(t, [], Slow(t, buf + [b], tail[..c - 1], size), wire, c, size, q);
        } else {
          LastHint(t, buf, b, tail, q);
          SlowIsFaithful(t, [], tail, c - 1, size - 1, q[1..]);
          FaithfulCons(t, [q[0]], Slow(t, [], tail[..c - 1], size - 1), wire, c, size, q);
        }
      }
    }
  }

  /** The fourth hint completes the first payload byte. */
  lemma LastHint(t: Table, buf: Bytes, b: byte, tail: Bytes, q: Bytes)
    requires GoodTable(t) && |buf| == 3 && EncodesHints(t, (buf + [b]) + HintsOf(t.layout, tail), q)
    ensures q != [] && PackHints(buf + [b]) in t.decodeMap && t.decodeMap[PackHints(buf + [b])] == q[0]
    ensures Pending(t, [], tail, q[1..])
  {
    var hints := (buf + [b]) + HintsOf(t.layout, tail);
    FirstByte(t, hints, q);
    assert hints[..4] == buf + [b] && hints[4..] == [] + HintsOf(t.layout, tail);
  }

  /** A reader's calls: how much of the wire each one sees and how much space it offers. */
  datatype Call = Call(chunk: nat, size: nat)

  /** All bytes read over a sequence of calls, with the leftover hints and wire. */
  function ReadAll(t: Table, buf: Bytes, wire: Bytes, calls: seq<Call>): (Bytes, Bytes, Bytes, bool)
    requires t.layout.Sized() && |buf| < 4
    decreases |calls|
  {
    if calls == [] then ([], buf, wire, false)
    else
      var r := Slow(t, buf, wire[..Min(calls[0].chunk, |wire|)], calls[0].size);
      if r.missed then (r.out, [], wire[r.consumed..], true)
      else
        var (out, buf', rest, missed) := ReadAll(t, r.buf, wire[r.consumed..], calls[1..]);
        (r.out + out, buf', rest, missed)
  }

  lemma {:induction false} ReadAllPending(t: Table, buf: Bytes, wire: Bytes, calls: seq<Call>, q: Bytes)
    requires GoodTable(t) && Pending(t, buf, wire, q)
    ensures var (out, buf', rest, missed) := ReadAll(t, buf, wire, calls);
      !missed && out <= q && Pending(t, buf', rest, q[|out|..])
    decreases |calls|
  {
    if calls == [] {
      assert q[0..] == q;
    } else {
      var c := Min(calls[0].chunk, |wire|);
      SlowIsFaithful(t, buf, wire, c, calls[0].size, q);
      var r := Slow(t, buf, wire[..c], calls[0].size);
      var q' := q[|r.out|..];
      ReadAllPending(t, r.buf, wire[r.consumed..], calls[1..], q');
      var out := ReadAll(t, r.buf, wire[r.consumed..], calls[1..]).0;
      assert q == r.out + q';
      assert q[|r.out + out|..] == q'[|out|..];
    }
  }

  /**
   Round trip: whatever puzzles, orders and padding the sender drew, and however
   the reader cuts the wire into chunks and sizes its buffers, it never meets an
   unknown key, reads a prefix of the payload, and all of it once no hint is left.
   */
  lemma DecodeInvertsEncode(t: Table, wire: Bytes, p: Bytes, calls: seq<Call>)
    requires GoodTable(t) && Encodes(t, wire, p)
    ensures var (out, buf, rest, missed) := ReadAll(t, [], wire, calls);
      && !missed && out <= p
      && (HintsOf(t.layout, rest) == [] ==> out == p && buf == [])
  {
    assert [] + HintsOf(t.layout, wire) == HintsOf(t.layout, wire);
    ReadAllPending(t, [], wire, calls, p);
    var (out, buf, rest, missed) := ReadAll(t, [], wire, calls);
    if HintsOf(t.layout, rest) == [] {
      assert |buf + HintsOf(t.layout, rest)| == |buf| < 4;
      assert p == out + p[|out|..];
    }
  }
}
