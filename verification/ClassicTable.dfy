/**
 The classic codec's tables: clue sets that single out one grid, their hint
 bytes, the order-free key of four hints, and why a key decodes to one byte.
 */
module ClassicTable {
  import opened Common
  import opened Layout

  /** A grid has 16 cells holding 1 to 4. */
  type Grid = g: seq<nat> | |g| == 16 && forall i | 0 <= i < 16 :: 1 <= g[i] <= 4
    witness [1, 2, 3, 4, 3, 4, 1, 2, 2, 1, 4, 3, 4, 3, 2, 1]

  /** Four cells in increasing order. */
  type Clues = c: seq<nat> | |c| == 4 && c[0] < c[1] < c[2] < c[3] < 16 witness [0, 1, 2, 3]

  type Hints = h: seq<byte> | |h| == 4 witness [0, 0, 0, 0]

  // ---------------------------------------------------------------------------
  // The sorting network and the key

  function Lo(a: byte, b: byte): byte { if a > b then b else a }
  function Hi(a: byte, b: byte): byte { if a > b then a else b }

  /** The five compare-and-swaps of packHintBytes. */
  function SortHints(h: Hints): Hints {
    var (a0, a1, a2, a3) := (Lo(h[0], h[1]), Hi(h[0], h[1]), Lo(h[2], h[3]), Hi(h[2], h[3]));
    var (b0, b2, b1, b3) := (Lo(a0, a2), Hi(a0, a2), Lo(a1, a3), Hi(a1, a3));
    [b0, Lo(b1, b2), Hi(b1, b2), b3]
  }

  function Two(a: int, b: int): int { a * 256 + b }

  function Three(a: int, b: int, c: int): int { Two(a, b) * 256 + c }

  function Key(a: int, b: int, c: int, d: int): int {
    Three(a, b, c) * 256 + d
  }

  function PackHints(h: Hints): int {
    var s := SortHints(h);
    Key(s[0], s[1], s[2], s[3])
  }

  function Is(a: byte, x: byte): nat { if a == x then 1 else 0 }

  /** How often a byte occurs among four. */
  function Count(h: Hints, x: byte): nat {
    Is(h[0], x) + Is(h[1], x) + Is(h[2], x) + Is(h[3], x)
  }

  /** The same four bytes, in any order. */
  ghost predicate SameUpToOrder(g: Hints, h: Hints) {
    forall x: byte :: Count(g, x) == Count(h, x)
  }

  lemma Swap(a: byte, b: byte, x: byte)
    ensures Is(Lo(a, b), x) + Is(Hi(a, b), x) == Is(a, x) + Is(b, x)
  {
  }

  /** The network sorts, and keeps every byte as often as it was. */
  lemma SortHintsSorts(h: Hints)
    ensures var s := SortHints(h); s[0] <= s[1] <= s[2] <= s[3] && SameUpToOrder(s, h)
  {
    var a0, a1, a2, a3 := Lo(h[0], h[1]), Hi(h[0], h[1]), Lo(h[2], h[3]), Hi(h[2], h[3]);
    var b0, b2, b1, b3 := Lo(a0, a2), Hi(a0, a2), Lo(a1, a3), Hi(a1, a3);
    forall x: byte ensures Count(SortHints(h), x) == Count(h, x) {
      Swap(h[0], h[1], x);
      Swap(h[2], h[3], x);
      Swap(a0, a2, x);
      Swap(a1, a3, x);
      Swap(b1, b2, x);
    }
  }

  /** Whichever of two sorted quadruples is smaller at the first difference would contain that value more often. */
  lemma SortedIsUnique(s: Hints, t: Hints)
    requires s[0] <= s[1] <= s[2] <= s[3] && t[0] <= t[1] <= t[2] <= t[3] && SameUpToOrder(s, t)
    ensures s[0] == t[0] && s[1] == t[1] && s[2] == t[2] && s[3] == t[3]
  {
    assert s[0] == t[0] by { assert Count(s, s[0]) == Count(t, s[0]) && Count(s, t[0]) == Count(t, t[0]); }
    assert s[1] == t[1] by { assert Count(s, s[1]) == Count(t, s[1]) && Count(s, t[1]) == Count(t, t[1]); }
    assert s[2] == t[2] by { assert Count(s, s[2]) == Count(t, s[2]) && Count(s, t[2]) == Count(t, t[2]); }
    assert s[3] == t[3] by { assert Count(s, s[3]) == Count(t, s[3]) && Count(s, t[3]) == Count(t, t[3]); }
  }

  /** Two sets of four hints have the same key exactly when they are the same up to order. */
  lemma KeyIsOrderFree(g: Hints, h: Hints)
    ensures PackHints(g) == PackHints(h) <==> SameUpToOrder(g, h)
  {
    SortHintsSorts(g);
    SortHintsSorts(h);
    var s, t := SortHints(g), SortHints(h);
    if SameUpToOrder(g, h) {
      SortedIsUnique(s, t);
    }
    if PackHints(g) == PackHints(h) {
      SameDigits(s[0], s[1], s[2], s[3], t[0], t[1], t[2], t[3]);
      forall x: byte ensures Count(g, x) == Count(h, x) {
        assert Count(s, x) == Count(g, x) && Count(t, x) == Count(h, x);
      }
    }
  }

  lemma SameDigits(a: byte, b: byte, c: byte, d: byte, e: byte, f: byte, g: byte, h: byte)
    requires Key(a, b, c, d) == Key(e, f, g, h)
    ensures a == e && b == f && c == g && d == h
  {
    LastDigit(Three(a, b, c), d, Three(e, f, g), h);
    LastDigit(Two(a, b), c, Two(e, f), g);
    LastDigit(a, b, e, f);
  }

  lemma LastDigit(x: int, d: byte, y: int, h: byte)
    requires x * 256 + d == y * 256 + h
    ensures x == y && d == h
  {
  }

  // ---------------------------------------------------------------------------
  // Clue sets

  ghost predicate Matches(g: Grid, target: Grid, c: Clues) {
    forall k | 0 <= k < 4 :: g[c[k]] == target[c[k]]
  }

  /** Of all grids only the target shows these clues. */
  ghost predicate Singles(grids: seq<Grid>, target: Grid, c: Clues) {
    forall i | 0 <= i < |grids| :: Matches(grids[i], target, c) ==> grids[i] == target
  }

  ghost predicate Distinct<T>(s: seq<T>) {
    forall i, j | 0 <= i < j < |s| :: s[i] != s[j]
  }

  /** The match count of sharedSudokuTableData, with its early exit; candidates with count one are kept. */
  method IsUniqueClueSet(grids: seq<Grid>, target: Grid, candidate: Clues) returns (unique: bool)
    requires Distinct(grids) && target in grids
    ensures unique <==> Singles(grids, target, candidate)
  {
    var matchCount := 0;
    var i := 0;
    ghost var seen := [];
    ghost var home :| 0 <= home < |grids| && grids[home] == target;
    while i < |grids|
      invariant 0 <= i <= |grids| && matchCount == |seen| <= 1
      invariant forall k | 0 <= k < |seen| :: 0 <= seen[k] < i && Matches(grids[seen[k]], target, candidate)
      invariant forall k | 0 <= k < i :: Matches(grids[k], target, candidate) ==> k in seen
    {
      var match_, p := true, 0;
      while p < 4
        invariant 0 <= p <= 4 && match_ == (forall k | 0 <= k < p :: grids[i][candidate[k]] == target[candidate[k]])
      {
        if grids[i][candidate[p]] != target[candidate[p]] {
          match_ := false;
          assert !Matches(grids[i], target, candidate);
          break;
        }
        p := p + 1;
      }
      assert match_ <==> Matches(grids[i], target, candidate);
      if match_ {
        matchCount := matchCount + 1;
        seen := seen + [i];
        if matchCount > 1 {
          assert Matches(grids[seen[0]], target, candidate) && Matches(grids[seen[1]], target, candidate);
          return false;
        }
      }
      i := i + 1;
    }
    assert Matches(grids[home], target, candidate);
    unique := matchCount == 1;
  }

  /** The hint byte of a clue: its value and its cell. */
  function HintAt(l: ByteLayout, g: Grid, c: Clues, k: nat): byte
    requires l.Sized() && k < 4
  {
    l.encodeHint[g[c[k]] - 1][c[k]]
  }

  function HintsFor(l: ByteLayout, g: Grid, c: Clues): Hints
    requires l.Sized()
  {
    [HintAt(l, g, c, 0), HintAt(l, g, c, 1), HintAt(l, g, c, 2), HintAt(l, g, c, 3)]
  }

  lemma SameHintsSameClues(l: ByteLayout, g: Grid, c: Clues, h: Grid, d: Clues)
    requires l.HintsOk() && SameUpToOrder(HintsFor(l, g, c), HintsFor(l, h, d))
    ensures Matches(h, g, c)
  {
    forall k | 0 <= k < 4 ensures h[c[k]] == g[c[k]] {
      var b := HintsFor(l, g, c)[k];
      assert Count(HintsFor(l, g, c), b) == Count(HintsFor(l, h, d), b);
      var m :| 0 <= m < 4 && HintsFor(l, h, d)[m] == b;
      assert l.encodeHint[g[c[k]] - 1][c[k]] == l.encodeHint[h[d[m]] - 1][d[m]];
    }
  }

  /** The heart of the codec: one key belongs to one grid. */
  lemma KeyDeterminesGrid(l: ByteLayout, grids: seq<Grid>, g: Grid, c: Clues, h: Grid, d: Clues)
    requires l.HintsOk() && Singles(grids, g, c) && h in grids
    requires PackHints(HintsFor(l, g, c)) == PackHints(HintsFor(l, h, d))
    ensures g == h
  {
    KeyIsOrderFree(HintsFor(l, g, c), HintsFor(l, h, d));
    SameHintsSameClues(l, g, c, h, d);
  }

  // ---------------------------------------------------------------------------
  // The table of one direction

  datatype Table = Table(layout: ByteLayout, encodeTable: seq<seq<Hints>>, decodeMap: map<int, byte>)

  /** What newSingleDirectionTable starts from: shuffled distinct grids, and each grid's unique clue sets. */
  ghost predicate Source(grids: seq<Grid>, unique: map<Grid, seq<Clues>>) {
    && |grids| >= 256 && Distinct(grids)
    && (forall g <- grids :: g in unique && forall k | 0 <= k < |unique[g]| :: Singles(grids, g, unique[g][k]))
  }

  /** Every byte has at least one clue set, the first of which is used for sending. */
  ghost predicate EachByteHasClues(grids: seq<Grid>, unique: map<Grid, seq<Clues>>)
    requires Source(grids, unique)
  {
    forall b | 0 <= b < 256 :: unique[grids[b]] != []
  }

  /** Clue set k of byte b decodes to b. */
  ghost predicate Decodes(l: ByteLayout, decodeMap: map<int, byte>, grids: seq<Grid>, unique: map<Grid, seq<Clues>>, b: nat, k: nat)
    requires Source(grids, unique) && b < 256 && k < |unique[grids[b]]| && l.Sized()
  {
    var key := PackHints(HintsFor(l, grids[b], unique[grids[b]][k]));
    key in decodeMap && decodeMap[key] == b
  }

  /** All clue sets of the bytes below b, and the first k of b, decode to their byte. */
  ghost predicate Recorded(l: ByteLayout, decodeMap: map<int, byte>, grids: seq<Grid>, unique: map<Grid, seq<Clues>>, b: nat, k: nat)
    requires Source(grids, unique) && l.Sized() && b <= 256
  {
    forall a: nat, m: nat :: (a < b || (a == b && m < k)) && a < 256 && m < |unique[grids[a]]| ==>
      Decodes(l, decodeMap, grids, unique, a, m)
  }

  lemma RecordOne(
    l: ByteLayout, decodeMap: map<int, byte>, grids: seq<Grid>, unique: map<Grid, seq<Clues>>, b: nat, k: nat)
    requires Source(grids, unique) && l.HintsOk() && b < 256 && k < |unique[grids[b]]|
    requires Recorded(l, decodeMap, grids, unique, b, k)
    ensures var key := PackHints(HintsFor(l, grids[b], unique[grids[b]][k]));
      Recorded(l, decodeMap[key := b], grids, unique, b, k + 1)
  {
    var key := PackHints(HintsFor(l, grids[b], unique[grids[b]][k]));
    var updated := decodeMap[key := b];
    forall a: nat, m: nat | (a < b || (a == b && m < k + 1)) && a < 256 && m < |unique[grids[a]]|
      ensures Decodes(l, updated, grids, unique, a, m)
    {
      if PackHints(HintsFor(l, grids[a], unique[grids[a]][m])) == key {
        KeyDeterminesGrid(l, grids, grids[a], unique[grids[a]][m], grids[b], unique[grids[b]][k]);
      } else {
        assert Decodes(l, decodeMap, grids, unique, a, m);
      }
    }
  }

  /** What the codec relies on: every stored puzzle, in any order, decodes to its byte. */
  ghost predicate GoodTable(t: Table) {
    && t.layout.HintsOk() && |t.encodeTable| == 256
    && (forall b | 0 <= b < 256 :: t.encodeTable[b] != [])
    && (forall b, k | 0 <= b < 256 && 0 <= k < |t.encodeTable[b]| ::
          && (forall i | 0 <= i < 4 :: t.layout.IsHint(t.encodeTable[b][k][i]))
          && PackHints(t.encodeTable[b][k]) in t.decodeMap && t.decodeMap[PackHints(t.encodeTable[b][k])] == b)
  }

  /** The rows of EncodeTable: at most the first clue set of each byte. */
  function EncodeRow(l: ByteLayout, grids: seq<Grid>, unique: map<Grid, seq<Clues>>, b: nat): seq<Hints>
    requires Source(grids, unique) && l.Sized() && b < 256
  {
    if unique[grids[b]] == [] then [] else [HintsFor(l, grids[b], unique[grids[b]][0])]
  }

  method AddByte(l: ByteLayout, decodeMap: map<int, byte>, grids: seq<Grid>, unique: map<Grid, seq<Clues>>, b: nat)
    returns (row: seq<Hints>, result: map<int, byte>)
    requires Source(grids, unique) && l.HintsOk() && b < 256 && Recorded(l, decodeMap, grids, unique, b, 0)
    ensures row == EncodeRow(l, grids, unique, b) && Recorded(l, result, grids, unique, b + 1, 0)
  {
    var positions := unique[grids[b]];
    row, result := [], decodeMap;
    for k := 0 to |positions|
      invariant row == if k == 0 then [] else [HintsFor(l, grids[b], positions[0])]
      invariant Recorded(l, result, grids, unique, b, k)
    {
      var hints := HintsFor(l, grids[b], positions[k]);
      if k == 0 { row := row + [hints]; }
      RecordOne(l, result, grids, unique, b, k);
      result := result[PackHints(hints) := b];
    }
  }

  /**
   newSingleDirectionTable: no entry of the decode map is ever overwritten by
   another byte, so each clue set of each byte decodes to that byte at the end.
   */
  method NewSingleDirectionTable(l: ByteLayout, grids: seq<Grid>, unique: map<Grid, seq<Clues>>) returns (t: Table)
    requires l.HintsOk() && Source(grids, unique)
    ensures t.layout == l && |t.encodeTable| == 256
    ensures forall b | 0 <= b < 256 :: t.encodeTable[b] == EncodeRow(l, grids, unique, b)
    ensures Recorded(l, t.decodeMap, grids, unique, 256, 0)
    ensures EachByteHasClues(grids, unique) ==> GoodTable(t)
  {
    var encodeTable: seq<seq<Hints>>, decodeMap: map<int, byte> := [], map[];
    for b := 0 to 256
      invariant |encodeTable| == b && forall a | 0 <= a < b :: encodeTable[a] == EncodeRow(l, grids, unique, a)
      invariant Recorded(l, decodeMap, grids, unique, b, 0)
    {
      var row;
      row, decodeMap := AddByte(l, decodeMap, grids, unique, b);
      encodeTable := encodeTable + [row];
    }
    t := Table(l, encodeTable, decodeMap);
    if EachByteHasClues(grids, unique) { BuiltTableIsGood(t, grids, unique); }
  }

  /** A table built from any shuffle is good as soon as every byte has a clue set. */
  lemma BuiltTableIsGood(t: Table, grids: seq<Grid>, unique: map<Grid, seq<Clues>>)
    requires t.layout.HintsOk() && Source(grids, unique) && EachByteHasClues(grids, unique) && |t.encodeTable| == 256
    requires forall b | 0 <= b < 256 :: t.encodeTable[b] == EncodeRow(t.layout, grids, unique, b)
    requires Recorded(t.layout, t.decodeMap, grids, unique, 256, 0)
    ensures GoodTable(t)
  {
    forall b, k | 0 <= b < 256 && 0 <= k < |t.encodeTable[b]|
      ensures PackHints(t.encodeTable[b][k]) in t.decodeMap && t.decodeMap[PackHints(t.encodeTable[b][k])] == b
      ensures forall i | 0 <= i < 4 :: t.layout.IsHint(t.encodeTable[b][k][i])
    {
      assert Decodes(t.layout, t.decodeMap, grids, unique, b, 0);
      forall i | 0 <= i < 4 ensures t.layout.IsHint(t.encodeTable[b][k][i]) {
        assert t.encodeTable[b][k][i] == HintAt(t.layout, grids[b], unique[grids[b]][0], i);
      }
    }
  }
}
