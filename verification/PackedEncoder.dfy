/**
 What a packed Write emits, group by group: every symbol and every random draw of
 a plain encoder that knows neither buffers nor blocks.
 */
module PackedEncoder {
  import opened Common
  import opened Packed
  import opened Classic

  const PREFIX := 14

  /** Padding pool, padding threshold and the random draws of one connection. */
  datatype Coder = Coder(pool: seq<byte>, threshold: nat, tape: seq<Draw>)

  /** The symbols so far, and how many draws are used up. */
  datatype Draft = Draft(syms: seq<Sym>, pos: nat)

  function AddForced(c: Coder, d: Draft): Draft
    requires c.pool != []
  {
    if |c.pool| == 1 then Draft(d.syms + [Pad(c.pool[0])], d.pos)
    else Draft(d.syms + [Pad(c.pool[Scaled(Drawn(c.tape, d.pos), |c.pool|)])], d.pos + 1)
  }

  /** With a threshold, one draw decides and a second one picks the byte. */
  function AddChance(c: Coder, d: Draft): Draft
    requires c.pool != []
  {
    if c.threshold == 0 then d
    else if Drawn(c.tape, d.pos) < c.threshold then
      Draft(d.syms + [Pad(c.pool[Scaled(Drawn(c.tape, d.pos + 1), |c.pool|)])], d.pos + 2)
    else Draft(d.syms, d.pos + 1)
  }

  function Put(d: Draft, s: Sym): Draft { Draft(d.syms + [s], d.pos) }

  function AddGroup(c: Coder, g: Group, d: Draft): Draft
    requires c.pool != []
  {
    Put(AddChance(c, d), G(g))
  }

  function AddGroups(c: Coder, gs: seq<Group>, d: Draft): Draft
    requires c.pool != []
  {
    if gs == [] then d else AddGroup(c, gs[|gs| - 1], AddGroups(c, gs[..|gs| - 1], d))
  }

  /** The complete groups among the digits. */
  function AddDigits(c: Coder, ds: seq<Digit>, d: Draft): Draft
    requires c.pool != []
    decreases |ds|
  {
    if |ds| < 3 then d else AddDigits(c, ds[3..], AddGroup(c, ToGroup(ds), d))
  }

  /** Payload byte number i behind the digits the earlier ones left over. */
  function AddByte(c: Coder, p: Bytes, i: nat, d: Draft): Draft
    requires c.pool != [] && i < |p|
  {
    AddDigits(c, Fed(p[..i]).1 + ByteDigits(p[i]), d)
  }

  /** One or two pads in front; the test of the loop draws each time. */
  function Opening(c: Coder, pos: nat): Draft
    requires c.pool != []
  {
    var one := AddForced(c, Draft([], pos + 1));
    if Scaled(Drawn(c.tape, one.pos), 2) == 0 then Draft(one.syms, one.pos + 1)
    else
      var two := AddForced(c, Draft(one.syms, one.pos + 1));
      Draft(two.syms, two.pos + 1)
  }

  function Gap(c: Coder, pos: nat): (gap: nat)
    ensures 1 <= gap <= 2
  {
    1 + Scaled(Drawn(c.tape, pos), 2)
  }

  /** The first bytes, with a forced pad behind every one or two of them. */
  function AddPrefix(c: Coder, p: Bytes, i: nat, effective: nat, gap: nat, d: Draft): Draft
    requires c.pool != []
    decreases |p| - i
  {
    if i >= Min(|p|, PREFIX) then d
    else
      var e := AddByte(c, p, i, d);
      if effective + 1 < gap then AddPrefix(c, p, i + 1, effective + 1, gap, e)
      else
        var f := AddForced(c, e);
        AddPrefix(c, p, i + 1, 0, Gap(c, f.pos), Draft(f.syms, f.pos + 1))
  }

  function Prefix(c: Coder, p: Bytes, pos: nat): Draft
    requires c.pool != []
  {
    var o := Opening(c, pos);
    AddPrefix(c, p, 0, 0, Gap(c, o.pos), Draft(o.syms, o.pos + 1))
  }

  /** Up to the next group boundary every byte has one more chance of a pad before it. */
  function AddAligned(c: Coder, p: Bytes, i: nat, d: Draft): (Draft, nat)
    requires c.pool != [] && i <= |p|
    decreases |p| - i
  {
    if i < |p| && Fed(p[..i]).1 != [] then AddAligned(c, p, i + 1, AddByte(c, p, i, AddChance(c, d))) else (d, i)
  }

  /** Payload bytes i to j. */
  function AddRange(c: Coder, p: Bytes, i: nat, j: nat, d: Draft): Draft
    requires c.pool != [] && j <= |p|
    decreases j
  {
    if j <= i then d else AddByte(c, p, j - 1, AddRange(c, p, i, j - 1, d))
  }

  /** The residual with its marker, and a last chance of a pad. */
  function AddEnd(c: Coder, p: Bytes, d: Draft): Draft
    requires c.pool != []
  {
    var rest := Fed(p).1;
    AddChance(c, if rest == [] then d else Put(AddGroup(c, ToGroup(Zeros(rest)), d), Mark))
  }

  /** A whole Write of p, from draw number pos on. */
  function Plain(c: Coder, p: Bytes, pos: nat): Draft
    requires c.pool != [] && p != []
  {
    var (d, i) := AddAligned(c, p, Min(|p|, PREFIX), Prefix(c, p, pos));
    AddEnd(c, p, AddRange(c, p, i, |p|, d))
  }

  // ---------------------------------------------------------------------------
  // What is emitted is a padded encoding of the payload

  /** How many symbols are padding. */
  function Pads(syms: seq<Sym>): int { |syms| - |Strip(syms)| }

  lemma PadsGrow(a: seq<Sym>, c: seq<Sym>)
    requires a <= c
    ensures Pads(a) <= Pads(c)
    decreases |c|
  {
    if |a| < |c| { PadsGrow(a, c[..|c| - 1]); } else { assert a == c; }
  }

  /** Padding in front, and more than one pad for every two of the first i bytes. */
  ghost predicate Padded(syms: seq<Sym>, i: nat) {
    syms != [] && syms[0].Pad? && 2 * Pads(syms) > i
  }

  lemma PaddedGrows(a: seq<Sym>, c: seq<Sym>, i: nat)
    requires a <= c && Padded(a, i)
    ensures Padded(c, i)
  {
    PadsGrow(a, c);
  }

  /** The first i bytes are out, but for the digits left over. */
  ghost predicate Shown(c: Coder, p: Bytes, i: nat, d: Draft) {
    i <= |p| && Strip(d.syms) == AsSyms(Fed(p[..i]).0) && PadsFrom(c.pool, d.syms)
  }

  /** Padding from the pool is added and nothing else. */
  ghost predicate OnlyPads(c: Coder, d: Draft, e: Draft) {
    d.syms <= e.syms && Strip(e.syms) == Strip(d.syms) && (PadsFrom(c.pool, d.syms) ==> PadsFrom(c.pool, e.syms))
  }

  lemma StripSnoc(syms: seq<Sym>, s: Sym)
    ensures Strip(syms + [s]) == if s.Pad? then Strip(syms) else Strip(syms) + [s]
  {
    assert (syms + [s])[..|syms|] == syms;
  }

  lemma ForcedPads(c: Coder, d: Draft)
    requires c.pool != []
    ensures OnlyPads(c, d, AddForced(c, d)) && Pads(AddForced(c, d).syms) == Pads(d.syms) + 1
    ensures |AddForced(c, d).syms| == |d.syms| + 1 && AddForced(c, d).syms[|d.syms|].Pad?
  {
    StripSnoc(d.syms, AddForced(c, d).syms[|d.syms|]);
  }

  lemma ChancePads(c: Coder, d: Draft)
    requires c.pool != []
    ensures OnlyPads(c, d, AddChance(c, d))
  {
    if AddChance(c, d).syms != d.syms { StripSnoc(d.syms, AddChance(c, d).syms[|d.syms|]); }
  }

  lemma GroupShows(c: Coder, g: Group, d: Draft)
    requires c.pool != []
    ensures var e := AddGroup(c, g, d);
      && d.syms <= e.syms && Strip(e.syms) == Strip(d.syms) + [G(g)]
      && (PadsFrom(c.pool, d.syms) ==> PadsFrom(c.pool, e.syms))
  {
    ChancePads(c, d);
    StripSnoc(AddChance(c, d).syms, G(g));
  }

  lemma {:induction false} DigitsShow(c: Coder, gs: seq<Group>, ds: seq<Digit>, d: Draft)
    requires c.pool != [] && Strip(d.syms) == AsSyms(gs) && PadsFrom(c.pool, d.syms)
    ensures var e := AddDigits(c, ds, d);
      d.syms <= e.syms && Strip(e.syms) == AsSyms(FeedDigits(gs, ds).0) && PadsFrom(c.pool, e.syms)
    decreases |ds|
  {
    if |ds| >= 3 {
      var g := ToGroup(ds);
      GroupShows(c, g, d);
      AsSymsSnoc(gs, g);
      DigitsShow(c, gs + [g], ds[3..], AddGroup(c, g, d));
    }
  }

  lemma AsSymsSnoc(gs: seq<Group>, g: Group)
    ensures AsSyms(gs + [g]) == AsSyms(gs) + [G(g)]
  {
  }

  lemma FedSnoc(p: Bytes, b: byte)
    ensures Fed(p + [b]) == FeedDigits(Fed(p).0, Fed(p).1 + ByteDigits(b))
  {
    assert (p + [b])[..|p|] == p;
  }

  lemma ByteShows(c: Coder, p: Bytes, i: nat, d: Draft)
    requires c.pool != [] && i < |p| && Shown(c, p, i, d)
    ensures var e := AddByte(c, p, i, d); d.syms <= e.syms && Shown(c, p, i + 1, e)
  {
    assert p[..i + 1] == p[..i] + [p[i]];
    FedSnoc(p[..i], p[i]);
    DigitsShow(c, Fed(p[..i]).0, Fed(p[..i]).1 + ByteDigits(p[i]), d);
  }

  lemma OpeningPads(c: Coder, pos: nat, p: Bytes)
    requires c.pool != []
    ensures var o := Opening(c, pos); Shown(c, p, 0, o) && o.syms != [] && o.syms[0].Pad? && Pads(o.syms) >= 1
  {
    var start := Draft([], pos + 1);
    assert p[..0] == [];
    ForcedPads(c, start);
    var one := AddForced(c, start);
    ForcedPads(c, Draft(one.syms, one.pos + 1));
  }

  /** Where the loop over the protected prefix is: its turn counter, and more than one pad for every two bytes. */
  ghost predicate InPrefix(c: Coder, p: Bytes, i: nat, effective: nat, gap: nat, d: Draft) {
    && i <= Min(|p|, PREFIX) && Shown(c, p, i, d) && effective < gap <= 2 && i + 2 <= 2 * Pads(d.syms) + effective
    && d.syms != [] && d.syms[0].Pad?
  }

  lemma {:induction false} PrefixShows(c: Coder, p: Bytes, i: nat, effective: nat, gap: nat, d: Draft)
    requires c.pool != [] && InPrefix(c, p, i, effective, gap, d)
    ensures var e := AddPrefix(c, p, i, effective, gap, d);
      Shown(c, p, Min(|p|, PREFIX), e) && Padded(e.syms, Min(|p|, PREFIX))
    decreases |p| - i
  {
    if i < Min(|p|, PREFIX) {
      var e := AddByte(c, p, i, d);
      InPrefixByte(c, p, i, effective, gap, d);
      if effective + 1 < gap {
        PrefixShows(c, p, i + 1, effective + 1, gap, e);
      } else {
        var f := AddForced(c, e);
        PrefixShows(c, p, i + 1, 0, Gap(c, f.pos), Draft(f.syms, f.pos + 1));
      }
    }
  }

  lemma InPrefixByte(c: Coder, p: Bytes, i: nat, effective: nat, gap: nat, d: Draft)
    requires c.pool != [] && InPrefix(c, p, i, effective, gap, d) && i < Min(|p|, PREFIX)
    ensures var e := AddByte(c, p, i, d);
      var f := AddForced(c, e);
      if effective + 1 < gap then InPrefix(c, p, i + 1, effective + 1, gap, e)
      else InPrefix(c, p, i + 1, 0, Gap(c, f.pos), Draft(f.syms, f.pos + 1))
  {
    var e := AddByte(c, p, i, d);
    ByteShows(c, p, i, d);
    PadsGrow(d.syms, e.syms);
    ForcedPads(c, e);
  }

  lemma PrefixEmits(c: Coder, p: Bytes, pos: nat)
    requires c.pool != []
    ensures var e := Prefix(c, p, pos); Shown(c, p, Min(|p|, PREFIX), e) && Padded(e.syms, Min(|p|, PREFIX))
  {
    var o := Opening(c, pos);
    OpeningPads(c, pos, p);
    PrefixShows(c, p, 0, 0, Gap(c, o.pos), Draft(o.syms, o.pos + 1));
  }

  lemma {:induction false} AlignedShows(c: Coder, p: Bytes, i: nat, d: Draft)
    requires c.pool != [] && Shown(c, p, i, d)
    ensures var (e, j) := AddAligned(c, p, i, d);
      d.syms <= e.syms && Shown(c, p, j, e) && i <= j && (j == |p| || Fed(p[..j]).1 == [])
    decreases |p| - i
  {
    if i < |p| && Fed(p[..i]).1 != [] {
      ChancePads(c, d);
      ByteShows(c, p, i, AddChance(c, d));
      AlignedShows(c, p, i + 1, AddByte(c, p, i, AddChance(c, d)));
    }
  }

  lemma {:induction false} RangeShows(c: Coder, p: Bytes, i: nat, j: nat, d: Draft)
    requires c.pool != [] && i <= j <= |p| && Shown(c, p, i, d)
    ensures var e := AddRange(c, p, i, j, d); d.syms <= e.syms && Shown(c, p, j, e)
    decreases j
  {
    if i < j {
      RangeShows(c, p, i, j - 1, d);
      ByteShows(c, p, j - 1, AddRange(c, p, i, j - 1, d));
    }
  }

  lemma EndShows(c: Coder, p: Bytes, d: Draft)
    requires c.pool != [] && Shown(c, p, |p|, d)
    ensures var e := AddEnd(c, p, d); d.syms <= e.syms && Strip(e.syms) == Expected(p) && PadsFrom(c.pool, e.syms)
  {
    assert p[..|p|] == p;
    var (gs, rest) := Fed(p);
    if rest == [] {
      ChancePads(c, d);
    } else {
      var g := ToGroup(Zeros(rest));
      var e := AddGroup(c, g, d);
      GroupShows(c, g, d);
      StripSnoc(e.syms, Mark);
      ConcatAssoc(AsSyms(gs), [G(g)], [Mark]);
      ChancePads(c, Put(e, Mark));
    }
  }

  /** Whatever is drawn: padding first and enough of it, all from the pool, and the symbols of the payload. */
  lemma PlainEmits(c: Coder, p: Bytes, pos: nat)
    requires c.pool != [] && p != []
    ensures var syms := Plain(c, p, pos).syms; Emits(c.pool, p, syms) && Padded(syms, Min(|p|, PREFIX))
  {
    PrefixEmits(c, p, pos);
    var head := Prefix(c, p, pos);
    AlignedShows(c, p, Min(|p|, PREFIX), head);
    var (d, i) := AddAligned(c, p, Min(|p|, PREFIX), head);
    RangeShows(c, p, i, |p|, d);
    EndShows(c, p, AddRange(c, p, i, |p|, d));
    PaddedGrows(head.syms, Plain(c, p, pos).syms, Min(|p|, PREFIX));
  }
}
