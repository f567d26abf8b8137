/** Byte layouts: which wire bytes are hints, what they mean, and which bytes are padding. */
module Layout {
  import opened Common

  /** The tables of byteLayout; `decodeGroup` has an entry for every wire byte. */
  datatype ByteLayout = ByteLayout(
    hintTable: seq<bool>, encodeHint: seq<seq<byte>>, encodeGroup: seq<byte>, decodeGroup: seq<byte>,
    paddingPool: seq<byte>, padMarker: byte)
  {
    ghost predicate Sized() {
      && |hintTable| == 256 && |decodeGroup| == 256 && |encodeGroup| == 64
      && |encodeHint| == 4 && (forall v | 0 <= v < 4 :: |encodeHint[v]| == 16)
    }

    predicate IsHint(b: byte)
      requires Sized()
    {
      hintTable[b]
    }

    /** All a hint-based codec needs: 64 different hints, and padding that is not a hint. */
    ghost predicate HintsOk() {
      && Sized()
      && (forall v, p | 0 <= v < 4 && 0 <= p < 16 :: IsHint(encodeHint[v][p]))
      && (forall v, p, v', p' | 0 <= v < 4 && 0 <= p < 16 && 0 <= v' < 4 && 0 <= p' < 16 ::
            encodeHint[v][p] == encodeHint[v'][p'] ==> v == v' && p == p')
      && paddingPool != [] && (forall b <- paddingPool :: !IsHint(b))
    }

    /** Six-bit groups survive the layout. */
    ghost predicate GroupsOk() {
      Sized() && forall g | 0 <= g < 64 :: decodeGroup[encodeGroup[g]] == g
    }
  }

  // ---------------------------------------------------------------------------
  // ASCII

  function AsciiByte(group: nat): byte
    requires group < 64
  {
    if group == 63 then 0x0A else 0x40 + group
  }

  function AsciiRow(v: nat): (row: seq<byte>)
    requires v < 4
    ensures |row| == 16
  {
    seq<byte>(16, p requires 0 <= p < 16 => AsciiByte(16 * v + p))
  }

  function AsciiHint(b: byte): bool { (b / 64) % 2 == 1 || b == 0x0A }

  function AsciiGroup(b: byte): byte {
    if b == 0x0A then 0x3F else if (b / 64) % 2 == 1 then b % 64 else 0
  }

  function AsciiLayout(): ByteLayout {
    ByteLayout(
      seq(256, b requires 0 <= b < 256 => AsciiHint(b)),
      [AsciiRow(0), AsciiRow(1), AsciiRow(2), AsciiRow(3)],
      seq(64, g requires 0 <= g < 64 => AsciiByte(g)),
      seq(256, b requires 0 <= b < 256 => AsciiGroup(b)),
      seq(32, i requires 0 <= i < 32 => 0x20 + i),
      0x3F)
  }

  /** newASCIILayout, table by table. */
  method NewAsciiLayout() returns (l: ByteLayout)
    ensures l == AsciiLayout()
  {
    var padding, encodeHint, encodeGroup: seq<byte>, hintTable, decodeGroup: seq<byte> := [], [], [], [], [];
    for i := 0 to 32
      invariant padding == AsciiLayout().paddingPool[..i]
    {
      padding := padding + [0x20 + i];
    }
    for v := 0 to 4
      invariant encodeHint == AsciiLayout().encodeHint[..v]
    {
      var row: seq<byte> := [];
      for p := 0 to 16
        invariant row == AsciiRow(v)[..p]
      {
        var b := 0x40 + v * 16 + p;
        if b == 0x7F { b := 0x0A; }
        row := row + [b];
      }
      assert row == AsciiRow(v) == AsciiLayout().encodeHint[v];
      encodeHint := encodeHint + [row];
    }
    for g := 0 to 64
      invariant encodeGroup == AsciiLayout().encodeGroup[..g]
    {
      var b := 0x40 + g;
      if b == 0x7F { b := 0x0A; }
      encodeGroup := encodeGroup + [b];
    }
    for b := 0 to 256
      invariant |hintTable| == |decodeGroup| == b
      invariant forall w | 0 <= w < b :: hintTable[w] == ((w / 64) % 2 == 1)
      invariant forall w | 0 <= w < b :: decodeGroup[w] == if (w / 64) % 2 == 1 then w % 64 else 0
    {
      if (b / 64) % 2 == 1 {
        hintTable, decodeGroup := hintTable + [true], decodeGroup + [b % 64];
      } else {
        hintTable, decodeGroup := hintTable + [false], decodeGroup + [0];
      }
    }
    hintTable := hintTable[0x0A := true];
    decodeGroup := decodeGroup[0x0A := 0x3F];
    l := ByteLayout(hintTable, encodeHint, encodeGroup, decodeGroup, padding, 0x3F);
    assert hintTable == AsciiLayout().hintTable && decodeGroup == AsciiLayout().decodeGroup;
    assert padding == AsciiLayout().paddingPool && encodeHint == AsciiLayout().encodeHint;
    assert encodeGroup == AsciiLayout().encodeGroup;
  }

  lemma AsciiIsGood()
    ensures AsciiLayout().HintsOk() && AsciiLayout().GroupsOk()
  {
    var l := AsciiLayout();
    forall v, p | 0 <= v < 4 && 0 <= p < 16 ensures l.encodeHint[v][p] == AsciiByte(16 * v + p) {}
    forall b | b in l.paddingPool ensures !l.IsHint(b) {
      var i :| 0 <= i < 32 && l.paddingPool[i] == b;
    }
  }

  predicate Printable(b: byte) { 0x20 <= b <= 0x7E || b == 0x0A }

  /** Whatever is written in the ASCII layout is printable or a newline; hints are written as groups, and pads look like no hint. */
  lemma AsciiIsPrintable()
    ensures var l := AsciiLayout();
      && l.Sized()
      && (forall g | 0 <= g < 64 :: Printable(l.encodeGroup[g]))
      && (forall v, p | 0 <= v < 4 && 0 <= p < 16 :: l.encodeHint[v][p] == l.encodeGroup[16 * v + p])
      && (forall b | b in l.paddingPool :: 0x20 <= b < 0x40) && l.padMarker in l.paddingPool
      && (forall b: byte :: 0x20 <= b < 0x40 ==> b in l.paddingPool)
  {
    var l := AsciiLayout();
    forall v, p | 0 <= v < 4 && 0 <= p < 16 ensures l.encodeHint[v][p] == l.encodeGroup[16 * v + p] {
      assert l.encodeHint[v] == AsciiRow(v);
    }
    forall b: byte | 0x20 <= b < 0x40 ensures b in l.paddingPool { assert l.paddingPool[b - 0x20] == b; }
    assert l.paddingPool[31] == 0x3F;
  }

  // ---------------------------------------------------------------------------
  // Entropy

  function EntropyRow(v: nat): (row: seq<byte>)
    requires v < 4
    ensures |row| == 16
  {
    seq(16, p requires 0 <= p < 16 => v * 32 + p)
  }

  function EntropyHint(b: byte): bool { (b / 128) % 2 == 0 && (b / 16) % 2 == 0 }

  function EntropyGroup(b: byte): byte {
    if EntropyHint(b) then ((b / 32) % 4) * 16 + b % 16 else 0
  }

  function EntropyLayout(): ByteLayout {
    ByteLayout(
      seq(256, b requires 0 <= b < 256 => EntropyHint(b)),
      [EntropyRow(0), EntropyRow(1), EntropyRow(2), EntropyRow(3)],
      seq(64, g requires 0 <= g < 64 => (g / 16) * 32 + g % 16),
      seq(256, b requires 0 <= b < 256 => EntropyGroup(b)),
      seq(16, i requires 0 <= i < 16 => if i % 2 == 0 then 0x80 + i / 2 else 0x10 + i / 2),
      0x80)
  }

  lemma EntropyEntry(b: byte)
    ensures EntropyLayout().hintTable[b] == EntropyHint(b) && EntropyLayout().decodeGroup[b] == EntropyGroup(b)
    ensures EntropyHint(b) <==> !((b / 128) % 2 == 1 || (b / 16) % 2 == 1)
  {
  }

  /** newEntropyLayout, table by table. */
  method NewEntropyLayout() returns (l: ByteLayout)
    ensures l == EntropyLayout()
  {
    var padding: seq<byte>, encodeHint, encodeGroup: seq<byte>, hintTable, decodeGroup: seq<byte> := [], [], [], [], [];
    for i := 0 to 8
      invariant padding == EntropyLayout().paddingPool[..2 * i]
    {
      padding := padding + [0x80 + i] + [0x10 + i];
    }
    for v := 0 to 4
      invariant encodeHint == EntropyLayout().encodeHint[..v]
    {
      var row: seq<byte> := [];
      for p := 0 to 16
        invariant row == EntropyRow(v)[..p]
      {
        row := row + [v * 32 + p];
      }
      assert row == EntropyRow(v) == EntropyLayout().encodeHint[v];
      encodeHint := encodeHint + [row];
    }
    for g := 0 to 64
      invariant encodeGroup == EntropyLayout().encodeGroup[..g]
    {
      encodeGroup := encodeGroup + [(g / 16) * 32 + g % 16];
    }
    for b := 0 to 256
      invariant hintTable == EntropyLayout().hintTable[..b] && decodeGroup == EntropyLayout().decodeGroup[..b]
    {
      EntropyEntry(b);
      if (b / 128) % 2 == 1 || (b / 16) % 2 == 1 {
        hintTable, decodeGroup := hintTable + [false], decodeGroup + [0];
      } else {
        hintTable, decodeGroup := hintTable + [true], decodeGroup + [((b / 32) % 4) * 16 + b % 16];
      }
    }
    l := ByteLayout(hintTable, encodeHint, encodeGroup, decodeGroup, padding, 0x80);
  }

  lemma EntropyRound(v: nat, p: nat)
    requires v < 4 && p < 16
    ensures EntropyHint(v * 32 + p) && EntropyGroup(v * 32 + p) == v * 16 + p
  {
    var b := v * 32 + p;
    assert b / 128 == 0 && b / 16 == 2 * v && b / 32 == v && b % 16 == p;
  }

  lemma EntropyIsGood()
    ensures EntropyLayout().HintsOk() && EntropyLayout().GroupsOk()
  {
    var l := EntropyLayout();
    forall v, p | 0 <= v < 4 && 0 <= p < 16 ensures l.encodeHint[v][p] == v * 32 + p && EntropyHint(v * 32 + p) {
      EntropyRound(v, p);
    }
    forall g | 0 <= g < 64 ensures l.decodeGroup[l.encodeGroup[g]] == g {
      EntropyRound(g / 16, g % 16);
      EntropyEntry(l.encodeGroup[g]);
    }
    forall b | b in l.paddingPool ensures !l.IsHint(b) {
      var i :| 0 <= i < 16 && l.paddingPool[i] == b;
    }
  }

  /** In the entropy layout bits 7 and 4 are clear in all of 64 group bytes, and exactly one of them, and bits 3, 5 and 6 never, is set in a pad. */
  lemma EntropyBits()
    ensures var l := EntropyLayout();
      && l.Sized()
      && (forall g | 0 <= g < 64 :: l.encodeGroup[g] < 128 && (l.encodeGroup[g] / 16) % 2 == 0)
      && (forall v, p | 0 <= v < 4 && 0 <= p < 16 :: l.encodeHint[v][p] == l.encodeGroup[16 * v + p])
      && (forall b | b in l.paddingPool :: 0x80 <= b < 0x88 || 0x10 <= b < 0x18) && l.padMarker in l.paddingPool
      && (forall b: byte :: 0x80 <= b < 0x88 || 0x10 <= b < 0x18 ==> b in l.paddingPool)
  {
    var l := EntropyLayout();
    forall v, p | 0 <= v < 4 && 0 <= p < 16 ensures l.encodeHint[v][p] == l.encodeGroup[16 * v + p] {
      assert l.encodeHint[v] == EntropyRow(v);
    }
    forall b: byte | 0x80 <= b < 0x88 || 0x10 <= b < 0x18 ensures b in l.paddingPool {
      var i := if b >= 0x80 then 2 * (b - 0x80) else 2 * (b - 0x10) + 1;
      assert l.paddingPool[i] == b;
    }
    assert l.paddingPool[0] == 0x80;
  }

  // ---------------------------------------------------------------------------
  // Custom patterns: eight symbols, two x, two p, four v; index 0 is the top bit

  datatype Symbol = X | P | V

  /** The places of one symbol, in order. */
  function Places(pattern: seq<Symbol>, s: Symbol): (r: seq<nat>)
    ensures forall k | 0 <= k < |r| :: r[k] < |pattern| && pattern[r[k]] == s
    ensures forall k, m | 0 <= k < m < |r| :: r[k] < r[m]
    ensures forall i | 0 <= i < |pattern| && pattern[i] == s :: i in r
  {
    if pattern == [] then []
    else
      var n := |pattern| - 1;
      Places(pattern[..n], s) + (if pattern[n] == s then [n] else [])
  }

  predicate GoodPattern(pattern: seq<Symbol>) {
    |pattern| == 8 && |Places(pattern, X)| == 2 && |Places(pattern, P)| == 2 && |Places(pattern, V)| == 4
  }

  function B2N(b: bool): nat { if b then 1 else 0 }

  function Exp2(n: nat): nat { if n == 0 then 1 else 2 * Exp2(n - 1) }

  /** The number with the given binary digits, most significant first. */
  function FromBits(bits: seq<bool>): (n: nat)
    ensures n < Exp2(|bits|)
  {
    if bits == [] then 0 else 2 * FromBits(bits[..|bits| - 1]) + B2N(bits[|bits| - 1])
  }

  /** The last `count` binary digits of a number. */
  function ToBits(n: nat, count: nat): (bits: seq<bool>)
    ensures |bits| == count
  {
    if count == 0 then [] else ToBits(n / 2, count - 1) + [n % 2 == 1]
  }

  lemma {:induction false} BitsRoundTrip(bits: seq<bool>)
    ensures ToBits(FromBits(bits), |bits|) == bits
  {
    if bits != [] {
      var init, last := bits[..|bits| - 1], bits[|bits| - 1];
      BitsRoundTrip(init);
      assert FromBits(bits) / 2 == FromBits(init) && (FromBits(bits) % 2 == 1) == last;
    }
  }

  /** The value of one bit of encodeBits; `drop` names the x bit left out, 2 none. */
  predicate PatternBit(pattern: seq<Symbol>, val: nat, pos: nat, drop: nat, i: nat)
    requires GoodPattern(pattern) && i < 8
  {
    match pattern[i]
    case X => !(drop < 2 && Places(pattern, X)[drop] == i)
    case P => if i == Places(pattern, P)[0] then (val / 2) % 2 == 1 else val % 2 == 1
    case V =>
      if i == Places(pattern, V)[0] then (pos / 8) % 2 == 1
      else if i == Places(pattern, V)[1] then (pos / 4) % 2 == 1
      else if i == Places(pattern, V)[2] then (pos / 2) % 2 == 1
      else pos % 2 == 1
  }

  function PatternBits(pattern: seq<Symbol>, val: nat, pos: nat, drop: nat): (bits: seq<bool>)
    requires GoodPattern(pattern)
    ensures |bits| == 8
  {
    seq(8, i requires 0 <= i < 8 => PatternBit(pattern, val, pos, drop, i))
  }

  function EncodeBits(pattern: seq<Symbol>, val: nat, pos: nat, drop: nat): byte
    requires GoodPattern(pattern)
  {
    assert Exp2(8) == 256;
    FromBits(PatternBits(pattern, val, pos, drop))
  }

  function CustomRow(pattern: seq<Symbol>, v: nat): (row: seq<byte>)
    requires GoodPattern(pattern)
    ensures |row| == 16
  {
    seq(16, p requires 0 <= p < 16 => EncodeBits(pattern, v, p, 2))
  }

  function OnesCount(bits: seq<bool>): nat {
    if bits == [] then 0 else B2N(bits[0]) + OnesCount(bits[1..])
  }

  predicate HasX(pattern: seq<Symbol>, bits: seq<bool>)
    requires GoodPattern(pattern) && |bits| == 8
  {
    bits[Places(pattern, X)[0]] && bits[Places(pattern, X)[1]]
  }

  predicate CustomHint(pattern: seq<Symbol>, b: byte)
    requires GoodPattern(pattern)
  {
    HasX(pattern, ToBits(b, 8))
  }

  function GroupOfBits(pattern: seq<Symbol>, bits: seq<bool>): byte
    requires GoodPattern(pattern) && |bits| == 8
  {
    if !HasX(pattern, bits) then 0
    else
      var p, v := Places(pattern, P), Places(pattern, V);
      16 * (2 * B2N(bits[p[0]]) + B2N(bits[p[1]]))
      + 8 * B2N(bits[v[0]]) + 4 * B2N(bits[v[1]]) + 2 * B2N(bits[v[2]]) + B2N(bits[v[3]])
  }

  function CustomGroup(pattern: seq<Symbol>, b: byte): byte
    requires GoodPattern(pattern)
  {
    GroupOfBits(pattern, ToBits(b, 8))
  }

  predicate CustomPad(pattern: seq<Symbol>, b: byte)
    requires GoodPattern(pattern)
  {
    OnesCount(ToBits(b, 8)) >= 5 &&
    exists drop, val, pos | 0 <= drop < 2 && 0 <= val < 4 && 0 <= pos < 16 :: b == EncodeBits(pattern, val, pos, drop)
  }

  /** The bytes below n that pass a test, in increasing order, each once. */
  function Select(test: byte -> bool, n: nat): (pool: seq<byte>)
    requires n <= 256
    ensures |pool| <= n && forall b: byte :: b in pool <==> b < n && test(b)
  {
    if n == 0 then [] else Select(test, n - 1) + (if test(n - 1) then [n - 1] else [])
  }

  function CustomPool(pattern: seq<Symbol>): seq<byte>
    requires GoodPattern(pattern)
  {
    Select((b: byte) => CustomPad(pattern, b), 256)
  }

  /** The wire byte of a six-bit group. */
  function CustomCode(pattern: seq<Symbol>, g: nat): byte
    requires GoodPattern(pattern)
  {
    EncodeBits(pattern, g / 16, g % 16, 2)
  }

  function CustomRows(pattern: seq<Symbol>): seq<seq<byte>>
    requires GoodPattern(pattern)
  {
    [CustomRow(pattern, 0), CustomRow(pattern, 1), CustomRow(pattern, 2), CustomRow(pattern, 3)]
  }

  function CustomCodes(pattern: seq<Symbol>): seq<byte>
    requires GoodPattern(pattern)
  {
    seq(64, g requires 0 <= g < 64 => CustomCode(pattern, g))
  }

  function CustomGroups(pattern: seq<Symbol>): seq<byte>
    requires GoodPattern(pattern)
  {
    seq(256, b requires 0 <= b < 256 => CustomGroup(pattern, b))
  }

  /** newCustomLayout: None stands for its error results. */
  function CustomLayout(pattern: seq<Symbol>): Option<ByteLayout> {
    if !GoodPattern(pattern) then None
    else
      var pool := CustomPool(pattern);
      if pool == [] then None
      else Some(ByteLayout(
        seq(256, b requires 0 <= b < 256 => CustomHint(pattern, b)),
        CustomRows(pattern), CustomCodes(pattern), CustomGroups(pattern), pool, pool[0]))
  }

  lemma ValueAndPosition(val: nat, pos: nat)
    requires val < 4 && pos < 16
    ensures 16 * (2 * B2N((val / 2) % 2 == 1) + B2N(val % 2 == 1))
      + 8 * B2N((pos / 8) % 2 == 1) + 4 * B2N((pos / 4) % 2 == 1) + 2 * B2N((pos / 2) % 2 == 1) + B2N(pos % 2 == 1)
      == 16 * val + pos
  {
  }

  lemma GroupOfPattern(pattern: seq<Symbol>, val: nat, pos: nat)
    requires GoodPattern(pattern) && val < 4 && pos < 16
    ensures var bits := PatternBits(pattern, val, pos, 2);
      HasX(pattern, bits) && GroupOfBits(pattern, bits) == 16 * val + pos
  {
    var bits := PatternBits(pattern, val, pos, 2);
    var x, p, v := Places(pattern, X), Places(pattern, P), Places(pattern, V);
    assert pattern[x[0]] == X && pattern[x[1]] == X;
    assert p[0] < p[1] && pattern[p[0]] == P && pattern[p[1]] == P;
    assert v[0] < v[1] < v[2] < v[3];
    ValueAndPosition(val, pos);
  }

  lemma CustomEncodesGroups(pattern: seq<Symbol>, val: nat, pos: nat)
    requires GoodPattern(pattern) && val < 4 && pos < 16
    ensures var b := EncodeBits(pattern, val, pos, 2); CustomHint(pattern, b) && CustomGroup(pattern, b) == 16 * val + pos
  {
    BitsRoundTrip(PatternBits(pattern, val, pos, 2));
    GroupOfPattern(pattern, val, pos);
  }

  lemma CustomPadIsNoHint(pattern: seq<Symbol>, b: byte)
    requires GoodPattern(pattern) && CustomPad(pattern, b)
    ensures !CustomHint(pattern, b)
  {
    var drop, val, pos :| 0 <= drop < 2 && 0 <= val < 4 && 0 <= pos < 16 && b == EncodeBits(pattern, val, pos, drop);
    BitsRoundTrip(PatternBits(pattern, val, pos, drop));
    var i := Places(pattern, X)[drop];
    assert pattern[i] == X && !PatternBits(pattern, val, pos, drop)[i];
  }

  /** A table whose group decoding inverts its hint encoding has 64 different hints. */
  lemma InverseIsInjective(l: ByteLayout, v: nat, p: nat, v': nat, p': nat)
    requires l.Sized() && v < 4 && p < 16 && v' < 4 && p' < 16
    requires l.decodeGroup[l.encodeHint[v][p]] == 16 * v + p && l.decodeGroup[l.encodeHint[v'][p']] == 16 * v' + p'
    requires l.encodeHint[v][p] == l.encodeHint[v'][p']
    ensures v == v' && p == p'
  {
  }

  lemma HintsFromGroups(l: ByteLayout)
    requires l.Sized() && l.paddingPool != [] && forall b <- l.paddingPool :: !l.IsHint(b)
    requires forall v, p | 0 <= v < 4 && 0 <= p < 16 :: HintEntryOk(l, v, p)
    ensures l.HintsOk()
  {
    forall v, p, v', p' | 0 <= v < 4 && 0 <= p < 16 && 0 <= v' < 4 && 0 <= p' < 16
      && l.encodeHint[v][p] == l.encodeHint[v'][p']
      ensures v == v' && p == p'
    {
      assert HintEntryOk(l, v, p) && HintEntryOk(l, v', p');
      InverseIsInjective(l, v, p, v', p');
    }
    forall v, p | 0 <= v < 4 && 0 <= p < 16 ensures l.IsHint(l.encodeHint[v][p]) { assert HintEntryOk(l, v, p); }
  }

  ghost predicate HintEntryOk(l: ByteLayout, v: nat, p: nat)
    requires l.Sized() && v < 4 && p < 16
  {
    l.IsHint(l.encodeHint[v][p]) && l.decodeGroup[l.encodeHint[v][p]] == 16 * v + p
  }

  lemma CustomSized(pattern: seq<Symbol>, l: ByteLayout)
    requires CustomLayout(pattern) == Some(l)
    ensures l.Sized() && l.paddingPool == CustomPool(pattern)
  {
    assert |l.encodeHint| == 4 && |l.encodeHint[0]| == 16 && |l.encodeHint[1]| == 16 && |l.encodeHint[2]| == 16 && |l.encodeHint[3]| == 16;
    FourRows(l.encodeHint);
  }

  lemma FourRows(rows: seq<seq<byte>>)
    requires |rows| == 4 && |rows[0]| == 16 && |rows[1]| == 16 && |rows[2]| == 16 && |rows[3]| == 16
    ensures forall v | 0 <= v < 4 :: |rows[v]| == 16
  {
  }

  lemma CustomMarkerIsPad(pattern: seq<Symbol>, l: ByteLayout)
    requires CustomLayout(pattern) == Some(l)
    ensures l.padMarker in l.paddingPool
  {
    assert l.padMarker == CustomPool(pattern)[0];
  }

  lemma CustomHintByte(pattern: seq<Symbol>, l: ByteLayout, v: nat, p: nat)
    requires CustomLayout(pattern) == Some(l) && v < 4 && p < 16
    ensures l.Sized() && l.encodeHint[v][p] == EncodeBits(pattern, v, p, 2)
  {
    CustomSized(pattern, l);
    if v == 0 {} else if v == 1 {} else if v == 2 {} else {}
  }

  lemma CustomTables(pattern: seq<Symbol>, l: ByteLayout, b: byte)
    requires CustomLayout(pattern) == Some(l)
    ensures l.Sized() && l.hintTable[b] == CustomHint(pattern, b) && l.decodeGroup[b] == CustomGroup(pattern, b)
  {
    CustomSized(pattern, l);
  }

  lemma CustomHintEntry(pattern: seq<Symbol>, l: ByteLayout, v: nat, p: nat)
    requires CustomLayout(pattern) == Some(l) && v < 4 && p < 16
    ensures l.Sized() && HintEntryOk(l, v, p)
  {
    CustomSized(pattern, l);
    CustomHintByte(pattern, l, v, p);
    CustomEncodesGroups(pattern, v, p);
    CustomTables(pattern, l, EncodeBits(pattern, v, p, 2));
  }

  lemma CustomGroupEntry(pattern: seq<Symbol>, l: ByteLayout, g: nat)
    requires CustomLayout(pattern) == Some(l) && g < 64
    ensures l.Sized() && l.decodeGroup[l.encodeGroup[g]] == g
  {
    CustomSized(pattern, l);
    CustomGroupByte(pattern, l, g);
    CustomEncodesGroups(pattern, g / 16, g % 16);
    CustomTables(pattern, l, CustomCode(pattern, g));
  }

  lemma CustomGroupByte(pattern: seq<Symbol>, l: ByteLayout, g: nat)
    requires CustomLayout(pattern) == Some(l) && g < 64
    ensures |l.encodeGroup| == 64 && l.encodeGroup[g] == CustomCode(pattern, g)
  {
    assert l.encodeGroup == CustomCodes(pattern);
  }

  lemma CustomPadEntry(pattern: seq<Symbol>, l: ByteLayout, b: byte)
    requires CustomLayout(pattern) == Some(l) && b in l.paddingPool
    ensures l.Sized() && !l.IsHint(b)
  {
    CustomSized(pattern, l);
    CustomPadIsNoHint(pattern, b);
  }

  /** Every pattern of the right shape gives a layout: the pool is never empty. */
  lemma CustomIsGood(pattern: seq<Symbol>)
    requires GoodPattern(pattern)
    ensures CustomLayout(pattern).Some? && CustomLayout(pattern).value.HintsOk() && CustomLayout(pattern).value.GroupsOk()
  {
    CustomPoolNotEmpty(pattern);
    CustomEntriesGood(pattern, CustomLayout(pattern).value);
  }

  lemma CustomEntriesGood(pattern: seq<Symbol>, l: ByteLayout)
    requires CustomLayout(pattern) == Some(l)
    ensures l.HintsOk() && l.GroupsOk()
  {
    CustomSized(pattern, l);
    forall v, p | 0 <= v < 4 && 0 <= p < 16 ensures HintEntryOk(l, v, p) { CustomHintEntry(pattern, l, v, p); }
    forall g | 0 <= g < 64 ensures l.decodeGroup[l.encodeGroup[g]] == g { CustomGroupEntry(pattern, l, g); }
    forall b | b in l.paddingPool ensures !l.IsHint(b) { CustomPadEntry(pattern, l, b); }
    HintsFromGroups(l);
  }

  lemma AllButOne(bits: seq<bool>, k: nat)
    requires k < |bits| && forall i | 0 <= i < |bits| :: bits[i] == (i != k)
    ensures OnesCount(bits) == |bits| - 1
  {
    if k == 0 {
      AllOnes(bits[1..]);
    } else {
      AllButOne(bits[1..], k - 1);
    }
  }

  lemma AllOnes(bits: seq<bool>)
    requires forall i | 0 <= i < |bits| :: bits[i]
    ensures OnesCount(bits) == |bits|
  {
  }

  lemma CustomPoolNotEmpty(pattern: seq<Symbol>)
    requires GoodPattern(pattern)
    ensures CustomPool(pattern) != []
  {
    var b := EncodeBits(pattern, 3, 15, 0);
    DroppedOnes(pattern);
    assert CustomPad(pattern, b);
    assert b in CustomPool(pattern);
  }

  lemma DroppedOnes(pattern: seq<Symbol>)
    requires GoodPattern(pattern)
    ensures OnesCount(ToBits(EncodeBits(pattern, 3, 15, 0), 8)) == 7
  {
    var bits := PatternBits(pattern, 3, 15, 0);
    DroppedBits(pattern);
    AllButOne(bits, Places(pattern, X)[0]);
    BitsRoundTrip(bits);
  }

  /** With value and position all ones and one x left out, that x is the only 0. */
  lemma DroppedBits(pattern: seq<Symbol>)
    requires GoodPattern(pattern)
    ensures forall i | 0 <= i < 8 :: PatternBits(pattern, 3, 15, 0)[i] == (i != Places(pattern, X)[0])
  {
    assert pattern[Places(pattern, X)[0]] == X;
  }
}
