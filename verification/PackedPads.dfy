/** Where a packed Write pads: with every draw below the threshold, and with none. */
module PackedPads {
  import opened Common
  import opened Packed
  import opened PackedEncoder
  import opened Classic

  // ---------------------------------------------------------------------------
  // Every draw below the threshold

  ghost predicate AllBelow(c: Coder) {
    c.pool != [] && forall k: nat :: Drawn(c.tape, k) < c.threshold
  }

  /** A pad directly before every group. */
  predicate GroupsPadded(syms: seq<Sym>) {
    forall i | 0 <= i < |syms| && syms[i].G? :: i > 0 && syms[i - 1].Pad?
  }

  predicate EndsInPad(syms: seq<Sym>) { syms != [] && syms[|syms| - 1].Pad? }

  lemma GroupsPaddedSnoc(syms: seq<Sym>, s: Sym)
    requires GroupsPadded(syms) && (s.G? ==> EndsInPad(syms))
    ensures GroupsPadded(syms + [s])
  {
    var all := syms + [s];
    forall i | 0 <= i < |all| && all[i].G? ensures i > 0 && all[i - 1].Pad? {
      if i < |syms| { assert all[i] == syms[i]; }
    }
  }

  lemma ForcedKeepsPadded(c: Coder, d: Draft)
    requires AllBelow(c) && GroupsPadded(d.syms)
    ensures GroupsPadded(AddForced(c, d).syms)
  {
    GroupsPaddedSnoc(d.syms, AddForced(c, d).syms[|d.syms|]);
  }

  lemma ChancePadsNow(c: Coder, d: Draft)
    requires AllBelow(c) && GroupsPadded(d.syms)
    ensures GroupsPadded(AddChance(c, d).syms) && EndsInPad(AddChance(c, d).syms)
  {
    assert Drawn(c.tape, d.pos) < c.threshold;
    GroupsPaddedSnoc(d.syms, AddChance(c, d).syms[|d.syms|]);
  }

  lemma GroupKeepsPadded(c: Coder, g: Group, d: Draft)
    requires AllBelow(c) && GroupsPadded(d.syms)
    ensures GroupsPadded(AddGroup(c, g, d).syms)
  {
    ChancePadsNow(c, d);
    GroupsPaddedSnoc(AddChance(c, d).syms, G(g));
  }

  lemma {:induction false} DigitsKeepPadded(c: Coder, ds: seq<Digit>, d: Draft)
    requires AllBelow(c) && GroupsPadded(d.syms)
    ensures GroupsPadded(AddDigits(c, ds, d).syms)
    decreases |ds|
  {
    if |ds| >= 3 {
      GroupKeepsPadded(c, ToGroup(ds), d);
      DigitsKeepPadded(c, ds[3..], AddGroup(c, ToGroup(ds), d));
    }
  }

  lemma ByteKeepsPadded(c: Coder, p: Bytes, i: nat, d: Draft)
    requires AllBelow(c) && GroupsPadded(d.syms) && i < |p|
    ensures GroupsPadded(AddByte(c, p, i, d).syms)
  {
    DigitsKeepPadded(c, Fed(p[..i]).1 + ByteDigits(p[i]), d);
  }

  lemma OpeningIsPadded(c: Coder, pos: nat)
    requires AllBelow(c)
    ensures GroupsPadded(Opening(c, pos).syms)
  {
    var start := Draft([], pos + 1);
    ForcedKeepsPadded(c, start);
    var one := AddForced(c, start);
    ForcedKeepsPadded(c, Draft(one.syms, one.pos + 1));
  }

  lemma {:induction false} PrefixKeepsPadded(c: Coder, p: Bytes, i: nat, effective: nat, gap: nat, d: Draft)
    requires AllBelow(c) && GroupsPadded(d.syms)
    ensures GroupsPadded(AddPrefix(c, p, i, effective, gap, d).syms)
    decreases |p| - i
  {
    if i < Min(|p|, PREFIX) {
      var e := AddByte(c, p, i, d);
      ByteKeepsPadded(c, p, i, d);
      if effective + 1 < gap {
        PrefixKeepsPadded(c, p, i + 1, effective + 1, gap, e);
      } else {
        ForcedKeepsPadded(c, e);
        var f := AddForced(c, e);
        PrefixKeepsPadded(c, p, i + 1, 0, Gap(c, f.pos), Draft(f.syms, f.pos + 1));
      }
    }
  }

  lemma {:induction false} AlignedKeepsPadded(c: Coder, p: Bytes, i: nat, d: Draft)
    requires AllBelow(c) && GroupsPadded(d.syms) && i <= |p|
    ensures GroupsPadded(AddAligned(c, p, i, d).0.syms)
    decreases |p| - i
  {
    if i < |p| && Fed(p[..i]).1 != [] {
      ChancePadsNow(c, d);
      ByteKeepsPadded(c, p, i, AddChance(c, d));
      AlignedKeepsPadded(c, p, i + 1, AddByte(c, p, i, AddChance(c, d)));
    }
  }

  lemma {:induction false} RangeKeepsPadded(c: Coder, p: Bytes, i: nat, j: nat, d: Draft)
    requires AllBelow(c) && GroupsPadded(d.syms) && j <= |p|
    ensures GroupsPadded(AddRange(c, p, i, j, d).syms)
    decreases j
  {
    if j > i {
      RangeKeepsPadded(c, p, i, j - 1, d);
      ByteKeepsPadded(c, p, j - 1, AddRange(c, p, i, j - 1, d));
    }
  }

  lemma EndIsPadded(c: Coder, p: Bytes, d: Draft)
    requires AllBelow(c) && GroupsPadded(d.syms)
    ensures GroupsPadded(AddEnd(c, p, d).syms) && EndsInPad(AddEnd(c, p, d).syms)
  {
    var rest := Fed(p).1;
    if rest == [] {
      ChancePadsNow(c, d);
    } else {
      var e := AddGroup(c, ToGroup(Zeros(rest)), d);
      GroupKeepsPadded(c, ToGroup(Zeros(rest)), d);
      GroupsPaddedSnoc(e.syms, Mark);
      ChancePadsNow(c, Put(e, Mark));
    }
  }

  /**
   When every draw is below the threshold, as at a threshold of 2^32, each group
   has a pad directly before it and a pad ends the Write.
   */
  lemma AlwaysPads(c: Coder, p: Bytes, pos: nat)
    requires AllBelow(c) && p != []
    ensures GroupsPadded(Plain(c, p, pos).syms) && EndsInPad(Plain(c, p, pos).syms)
  {
    var o := Opening(c, pos);
    OpeningIsPadded(c, pos);
    PrefixKeepsPadded(c, p, 0, 0, Gap(c, o.pos), Draft(o.syms, o.pos + 1));
    var head := Prefix(c, p, pos);
    AlignedKeepsPadded(c, p, Min(|p|, PREFIX), head);
    var (d, i) := AddAligned(c, p, Min(|p|, PREFIX), head);
    RangeKeepsPadded(c, p, i, |p|, d);
    EndIsPadded(c, p, AddRange(c, p, i, |p|, d));
  }

  // ---------------------------------------------------------------------------
  // No draw below the threshold

  ghost predicate NoneBelow(c: Coder) {
    c.pool != [] && forall k: nat :: Drawn(c.tape, k) >= c.threshold
  }

  /** What stands before the pad are the complete groups of some of the first 14 bytes. */
  ghost predicate BehindByte(p: Bytes, before: seq<Sym>) {
    exists i: nat :: 0 < i <= Min(|p|, PREFIX) && Strip(before) == AsSyms(Fed(p[..i]).0)
  }

  /** Every pad is one of the one or two in front, or a single one behind one of the first 14 bytes. */
  ghost predicate OnlyForced(p: Bytes, syms: seq<Sym>) {
    forall t | 0 <= t < |syms| && syms[t].Pad? :: t <= 1 || (BehindByte(p, syms[..t]) && !syms[t - 1].Pad?)
  }

  lemma OnlyForcedSnoc(p: Bytes, syms: seq<Sym>, s: Sym)
    requires OnlyForced(p, syms)
    requires s.Pad? ==> |syms| <= 1 || (BehindByte(p, syms) && !syms[|syms| - 1].Pad?)
    ensures OnlyForced(p, syms + [s])
  {
    var all := syms + [s];
    forall t | 0 <= t < |all| && all[t].Pad? ensures t <= 1 || (BehindByte(p, all[..t]) && !all[t - 1].Pad?) {
      if t < |syms| {
        assert all[t] == syms[t] && all[..t] == syms[..t];
      } else {
        assert all[..t] == syms;
      }
    }
  }

  lemma ChanceAddsNothing(c: Coder, d: Draft)
    requires NoneBelow(c)
    ensures AddChance(c, d).syms == d.syms
  {
    assert Drawn(c.tape, d.pos) >= c.threshold;
  }

  lemma GroupIsNoPad(c: Coder, g: Group, p: Bytes, d: Draft)
    requires NoneBelow(c) && OnlyForced(p, d.syms)
    ensures OnlyForced(p, AddGroup(c, g, d).syms) && !EndsInPad(AddGroup(c, g, d).syms)
  {
    ChanceAddsNothing(c, d);
    OnlyForcedSnoc(p, d.syms, G(g));
  }

  lemma {:induction false} DigitsAreNoPads(c: Coder, ds: seq<Digit>, p: Bytes, d: Draft)
    requires NoneBelow(c) && OnlyForced(p, d.syms)
    ensures OnlyForced(p, AddDigits(c, ds, d).syms)
    ensures |ds| >= 3 || !EndsInPad(d.syms) ==> !EndsInPad(AddDigits(c, ds, d).syms)
    decreases |ds|
  {
    if |ds| >= 3 {
      GroupIsNoPad(c, ToGroup(ds), p, d);
      DigitsAreNoPads(c, ds[3..], p, AddGroup(c, ToGroup(ds), d));
    }
  }

  lemma ByteIsNoPad(c: Coder, p: Bytes, i: nat, d: Draft)
    requires NoneBelow(c) && OnlyForced(p, d.syms) && i < |p|
    ensures OnlyForced(p, AddByte(c, p, i, d).syms) && !EndsInPad(AddByte(c, p, i, d).syms)
  {
    DigitsAreNoPads(c, Fed(p[..i]).1 + ByteDigits(p[i]), p, d);
  }

  lemma OpeningIsForced(c: Coder, p: Bytes, pos: nat)
    requires NoneBelow(c)
    ensures OnlyForced(p, Opening(c, pos).syms)
  {
    var start := Draft([], pos + 1);
    var one := AddForced(c, start);
    OnlyForcedSnoc(p, [], one.syms[0]);
    var two := AddForced(c, Draft(one.syms, one.pos + 1));
    OnlyForcedSnoc(p, one.syms, two.syms[1]);
  }

  /** A forced pad behind byte number i. */
  lemma ForcedBehindByte(c: Coder, p: Bytes, i: nat, d: Draft)
    requires NoneBelow(c) && OnlyForced(p, d.syms) && Shown(c, p, i, d) && 0 < i <= Min(|p|, PREFIX) && !EndsInPad(d.syms)
    ensures OnlyForced(p, AddForced(c, d).syms)
  {
    assert BehindByte(p, d.syms);
    OnlyForcedSnoc(p, d.syms, AddForced(c, d).syms[|d.syms|]);
  }

  /** Only forced pads so far, behind the first i bytes. */
  ghost predicate Forcing(c: Coder, p: Bytes, i: nat, d: Draft) {
    OnlyForced(p, d.syms) && Shown(c, p, i, d)
  }

  lemma {:induction false} PrefixIsForced(c: Coder, p: Bytes, i: nat, effective: nat, gap: nat, d: Draft)
    requires NoneBelow(c) && Forcing(c, p, i, d) && i <= Min(|p|, PREFIX)
    ensures Forcing(c, p, Min(|p|, PREFIX), AddPrefix(c, p, i, effective, gap, d))
    decreases |p| - i
  {
    if i < Min(|p|, PREFIX) {
      StepIsForced(c, p, i, d);
      var e := AddByte(c, p, i, d);
      if effective + 1 < gap {
        PrefixIsForced(c, p, i + 1, effective + 1, gap, e);
      } else {
        UnfoldPrefix(c, p, i, effective, gap, d);
        var f := AddForced(c, e);
        PrefixIsForced(c, p, i + 1, 0, Gap(c, f.pos), Draft(f.syms, f.pos + 1));
      }
    }
  }

  lemma StepIsForced(c: Coder, p: Bytes, i: nat, d: Draft)
    requires NoneBelow(c) && Forcing(c, p, i, d) && i < Min(|p|, PREFIX)
    ensures var e := AddByte(c, p, i, d);
      var f := AddForced(c, e);
      Forcing(c, p, i + 1, e) && Forcing(c, p, i + 1, Draft(f.syms, f.pos + 1))
  {
    var e := AddByte(c, p, i, d);
    ByteShows(c, p, i, d);
    ByteIsNoPad(c, p, i, d);
    ForcedBehindByte(c, p, i + 1, e);
    ForcedPads(c, e);
  }

  lemma {:induction false} AlignedIsForced(c: Coder, p: Bytes, i: nat, d: Draft)
    requires NoneBelow(c) && OnlyForced(p, d.syms) && i <= |p|
    ensures OnlyForced(p, AddAligned(c, p, i, d).0.syms)
    decreases |p| - i
  {
    if i < |p| && Fed(p[..i]).1 != [] {
      ChanceAddsNothing(c, d);
      ByteIsNoPad(c, p, i, AddChance(c, d));
      AlignedIsForced(c, p, i + 1, AddByte(c, p, i, AddChance(c, d)));
    }
  }

  lemma {:induction false} RangeIsForced(c: Coder, p: Bytes, i: nat, j: nat, d: Draft)
    requires NoneBelow(c) && OnlyForced(p, d.syms) && j <= |p|
    ensures OnlyForced(p, AddRange(c, p, i, j, d).syms)
    decreases j
  {
    if j > i {
      RangeIsForced(c, p, i, j - 1, d);
      ByteIsNoPad(c, p, j - 1, AddRange(c, p, i, j - 1, d));
    }
  }

  lemma EndIsForced(c: Coder, p: Bytes, d: Draft)
    requires NoneBelow(c) && OnlyForced(p, d.syms)
    ensures OnlyForced(p, AddEnd(c, p, d).syms)
  {
    var rest := Fed(p).1;
    if rest == [] {
      ChanceAddsNothing(c, d);
    } else {
      var e := AddGroup(c, ToGroup(Zeros(rest)), d);
      GroupIsNoPad(c, ToGroup(Zeros(rest)), p, d);
      OnlyForcedSnoc(p, e.syms, Mark);
      ChanceAddsNothing(c, Put(e, Mark));
    }
  }

  /** When no draw is below the threshold, as at a threshold of 0, there are only the forced pads. */
  lemma NeverPads(c: Coder, p: Bytes, pos: nat)
    requires NoneBelow(c) && p != []
    ensures OnlyForced(p, Plain(c, p, pos).syms)
  {
    var o := Opening(c, pos);
    OpeningIsForced(c, p, pos);
    OpeningPads(c, pos, p);
    PrefixIsForced(c, p, 0, 0, Gap(c, o.pos), Draft(o.syms, o.pos + 1));
    var head := Prefix(c, p, pos);
    AlignedIsForced(c, p, Min(|p|, PREFIX), head);
    var (d, i) := AddAligned(c, p, Min(|p|, PREFIX), head);
    RangeIsForced(c, p, i, |p|, d);
    EndIsForced(c, p, AddRange(c, p, i, |p|, d));
  }

  // ---------------------------------------------------------------------------
  // Nothing but the draws that decide distinguishes a threshold never reached from none

  /** The same pool without a threshold, on another tape. */
  function Unpadded(c: Coder, tape: seq<Draw>): Coder { Coder(c.pool, 0, tape) }

  lemma {:induction false} SameDigits(c: Coder, c0: Coder, ds: seq<Digit>, d: Draft, d0: Draft)
    requires NoneBelow(c) && c0 == Unpadded(c, c0.tape) && d0.syms == d.syms
    ensures AddDigits(c0, ds, d0) == Draft(AddDigits(c, ds, d).syms, d0.pos)
    decreases |ds|
  {
    if |ds| >= 3 {
      var g := ToGroup(ds);
      ChanceAddsNothing(c, d);
      SameDigits(c, c0, ds[3..], AddGroup(c, g, d), AddGroup(c0, g, d0));
    }
  }

  lemma SameByte(c: Coder, c0: Coder, p: Bytes, i: nat, d: Draft, d0: Draft)
    requires NoneBelow(c) && c0 == Unpadded(c, c0.tape) && d0.syms == d.syms && i < |p|
    ensures AddByte(c0, p, i, d0) == Draft(AddByte(c, p, i, d).syms, d0.pos)
  {
    SameDigits(c, c0, Fed(p[..i]).1 + ByteDigits(p[i]), d, d0);
  }

  /** A tape whose draws from k0 on are those of another one from k on, as far as one forced pad and the next gap need. */
  predicate Matches(t0: seq<Draw>, k0: nat, c: Coder, k: nat, n: nat) {
    k0 + n <= |t0| && forall j: nat | j < n :: SameDraw(t0, k0, c, k, j)
  }

  predicate SameDraw(t0: seq<Draw>, k0: nat, c: Coder, k: nat, j: nat) { Drawn(t0, k0 + j) == Drawn(c.tape, k + j) }

  /** The next n draws. */
  function Next(c: Coder, k: nat, n: nat): seq<Draw> { seq<Draw>(n, j requires 0 <= j < n => Drawn(c.tape, k + j)) }

  lemma NextMatches(before: seq<Draw>, c: Coder, k: nat, n: nat, after: seq<Draw>)
    ensures Matches(before + (Next(c, k, n) + after), |before|, c, k, n)
  {
    var t := before + (Next(c, k, n) + after);
    forall j: nat | j < n ensures SameDraw(t, |before|, c, k, j) { assert t[|before| + j] == Next(c, k, n)[j]; }
  }

  lemma SameForced(c: Coder, t0: seq<Draw>, d: Draft, d0: Draft)
    requires c.pool != [] && d0.syms == d.syms && (|c.pool| > 1 ==> Matches(t0, d0.pos, c, d.pos, 1))
    ensures AddForced(Unpadded(c, t0), d0) == Draft(AddForced(c, d).syms, d0.pos + (AddForced(c, d).pos - d.pos))
  {
    if |c.pool| > 1 { assert SameDraw(t0, d0.pos, c, d.pos, 0); }
  }

  lemma {:induction false} SamePrefix(
    c: Coder, p: Bytes, i: nat, effective: nat, gap: nat, d: Draft, t0: seq<Draw>) returns (more: seq<Draw>)
    requires NoneBelow(c)
    ensures AddPrefix(Unpadded(c, t0 + more), p, i, effective, gap, Draft(d.syms, |t0|)).syms
         == AddPrefix(c, p, i, effective, gap, d).syms
    decreases |p| - i
  {
    more := [];
    if i < Min(|p|, PREFIX) {
      var e := AddByte(c, p, i, d);
      if effective + 1 < gap {
        more := SamePrefix(c, p, i + 1, effective + 1, gap, e, t0);
        SameByte(c, Unpadded(c, t0 + more), p, i, d, Draft(d.syms, |t0|));
      } else {
        var f := AddForced(c, e);
        var now := Next(c, e.pos, f.pos + 1 - e.pos);
        var rest := SamePrefix(c, p, i + 1, 0, Gap(c, f.pos), Draft(f.syms, f.pos + 1), t0 + now);
        more := now + rest;
        ConcatAssoc(t0, now, rest);
        PadAndGap(c, p, i, d, t0, rest);
        UnfoldPrefix(c, p, i, effective, gap, d);
        UnfoldPrefix(Unpadded(c, t0 + more), p, i, effective, gap, Draft(d.syms, |t0|));
      }
    }
  }

  lemma UnfoldPrefix(c: Coder, p: Bytes, i: nat, effective: nat, gap: nat, d: Draft)
    requires c.pool != [] && i < Min(|p|, PREFIX) && effective + 1 >= gap
    ensures var f := AddForced(c, AddByte(c, p, i, d));
      AddPrefix(c, p, i, effective, gap, d) == AddPrefix(c, p, i + 1, 0, Gap(c, f.pos), Draft(f.syms, f.pos + 1))
  {
  }

  /** One byte, a forced pad and the gap behind it, on the other tape. */
  lemma PadAndGap(c: Coder, p: Bytes, i: nat, d: Draft, t0: seq<Draw>, rest: seq<Draw>)
    requires NoneBelow(c) && i < |p|
    ensures var e := AddByte(c, p, i, d);
      var f := AddForced(c, e);
      var n := f.pos + 1 - e.pos;
      var c0 := Unpadded(c, t0 + (Next(c, e.pos, n) + rest));
      var f0 := AddForced(c0, AddByte(c0, p, i, Draft(d.syms, |t0|)));
      f0 == Draft(f.syms, |t0| + n - 1) && Gap(c0, f0.pos) == Gap(c, f.pos)
  {
    var e := AddByte(c, p, i, d);
    var n := AddForced(c, e).pos + 1 - e.pos;
    var t := t0 + (Next(c, e.pos, n) + rest);
    SameByte(c, Unpadded(c, t), p, i, d, Draft(d.syms, |t0|));
    NextMatches(t0, c, e.pos, n, rest);
    FirstMatches(t, |t0|, c, e.pos, n);
    SameForced(c, t, e, Draft(e.syms, |t0|));
    assert SameDraw(t, |t0|, c, e.pos, n - 1);
  }

  lemma FirstMatches(t0: seq<Draw>, k0: nat, c: Coder, k: nat, n: nat)
    requires Matches(t0, k0, c, k, n) && n > 0
    ensures Matches(t0, k0, c, k, 1)
  {
    assert SameDraw(t0, k0, c, k, 0);
  }

  lemma SameOpening(c: Coder, t: seq<Draw>, pos: nat)
    requires c.pool != [] && Matches(t, 0, c, pos, Opening(c, pos).pos - pos)
    ensures Opening(Unpadded(c, t), 0) == Draft(Opening(c, pos).syms, Opening(c, pos).pos - pos)
  {
    var start := Draft([], pos + 1);
    var one := AddForced(c, start);
    var at := one.pos - pos;
    if |c.pool| > 1 { LaterMatches(t, c, pos, 1, Opening(c, pos).pos - pos); }
    SameForced(c, t, start, Draft([], 1));
    assert SameDraw(t, 0, c, pos, at);
    if Scaled(Drawn(c.tape, one.pos), 2) != 0 {
      if |c.pool| > 1 { LaterMatches(t, c, pos, at + 1, Opening(c, pos).pos - pos); }
      SameForced(c, t, Draft(one.syms, one.pos + 1), Draft(one.syms, at + 1));
    }
  }

  lemma LaterMatches(t: seq<Draw>, c: Coder, pos: nat, k: nat, n: nat)
    requires Matches(t, 0, c, pos, n) && k < n
    ensures Matches(t, k, c, pos + k, 1)
  {
    assert SameDraw(t, 0, c, pos, k);
    assert SameDraw(t, k, c, pos + k, 0);
  }

  lemma {:induction false} SameAligned(c: Coder, c0: Coder, p: Bytes, i: nat, d: Draft, d0: Draft)
    requires NoneBelow(c) && c0 == Unpadded(c, c0.tape) && d0.syms == d.syms && i <= |p|
    ensures AddAligned(c0, p, i, d0).0.syms == AddAligned(c, p, i, d).0.syms
    ensures AddAligned(c0, p, i, d0).1 == AddAligned(c, p, i, d).1
    decreases |p| - i
  {
    if i < |p| && Fed(p[..i]).1 != [] {
      ChanceAddsNothing(c, d);
      SameByte(c, c0, p, i, AddChance(c, d), d0);
      SameAligned(c, c0, p, i + 1, AddByte(c, p, i, AddChance(c, d)), AddByte(c0, p, i, AddChance(c0, d0)));
    }
  }

  lemma {:induction false} SameRange(c: Coder, c0: Coder, p: Bytes, i: nat, j: nat, d: Draft, d0: Draft)
    requires NoneBelow(c) && c0 == Unpadded(c, c0.tape) && d0.syms == d.syms && j <= |p|
    ensures AddRange(c0, p, i, j, d0).syms == AddRange(c, p, i, j, d).syms
    decreases j
  {
    if j > i {
      SameRange(c, c0, p, i, j - 1, d, d0);
      SameByte(c, c0, p, j - 1, AddRange(c, p, i, j - 1, d), AddRange(c0, p, i, j - 1, d0));
    }
  }

  lemma SameEnd(c: Coder, c0: Coder, p: Bytes, d: Draft, d0: Draft)
    requires NoneBelow(c) && c0 == Unpadded(c, c0.tape) && d0.syms == d.syms
    ensures AddEnd(c0, p, d0).syms == AddEnd(c, p, d).syms
  {
    var rest := Fed(p).1;
    if rest == [] {
      ChanceAddsNothing(c, d);
    } else {
      ChanceAddsNothing(c, d);
      ChanceAddsNothing(c, Put(AddGroup(c, ToGroup(Zeros(rest)), d), Mark));
    }
  }

  lemma StartMatches(c: Coder, pos: nat, used: nat, more: seq<Draw>)
    requires used > 0
    ensures Matches(Next(c, pos, used) + more, 0, c, pos, used) && Matches(Next(c, pos, used) + more, 0, c, pos, used - 1)
  {
    var none: seq<Draw> := [];
    NextMatches(none, c, pos, used, more);
    assert none + (Next(c, pos, used) + more) == Next(c, pos, used) + more;
  }

  /** Symbol for symbol, such a Write is one without a threshold, for the draws that are left. */
  lemma NeverPadsIsUnpadded(c: Coder, p: Bytes, pos: nat)
    requires NoneBelow(c) && p != []
    ensures exists tape: seq<Draw> :: Plain(Unpadded(c, tape), p, 0).syms == Plain(c, p, pos).syms
  {
    var o := Opening(c, pos);
    var used := o.pos + 1 - pos;
    var now := Next(c, pos, used);
    var more := SamePrefix(c, p, 0, 0, Gap(c, o.pos), Draft(o.syms, o.pos + 1), now);
    var tape := now + more;
    var c0 := Unpadded(c, tape);
    StartMatches(c, pos, used, more);
    SameOpening(c, tape, pos);
    assert SameDraw(tape, 0, c, pos, used - 1);
    var head, head0 := Prefix(c, p, pos), Prefix(c0, p, 0);
    assert head0.syms == head.syms;
    SameAligned(c, c0, p, Min(|p|, PREFIX), head, head0);
    var (d, i) := AddAligned(c, p, Min(|p|, PREFIX), head);
    var d0 := AddAligned(c0, p, Min(|p|, PREFIX), head0).0;
    SameRange(c, c0, p, i, |p|, d, d0);
    SameEnd(c, c0, p, AddRange(c, p, i, |p|, d), AddRange(c0, p, i, |p|, d0));
    assert Plain(c0, p, 0).syms == Plain(c, p, pos).syms;
  }
}
