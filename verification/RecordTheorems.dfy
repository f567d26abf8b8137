/** What RecordConn guarantees over whole connections. */
module RecordTheorems {
  import opened Common
  import opened Record

  // ---------------------------------------------------------------------------
  // The sender's header sequence

  ghost predicate NonEmpty(chunks: seq<Bytes>) {
    forall i | 0 <= i < |chunks| :: chunks[i] != []
  }

  /** How the sender's state after some records relates to its state before them. */
  ghost predicate Follows(cfg: Config, a: Sender, b: Sender, records: nat) {
    && a.updates <= b.updates
    && b.epoch == (a.epoch + (b.updates - a.updates)) % U32
    && (a.updates == b.updates ==> b.seqNo == (a.seqNo + records) % U64)
    && (cfg.rotateAfter > 0 ==>
          && a.bytes + records <= b.bytes
          && (a.updates == b.updates && records > 0 ==> b.bytes < cfg.rotateAfter * (b.updates + 1)))
  }

  lemma {:induction false} AfterFollows(cfg: Config, s: Sender, chunks: seq<Bytes>)
    requires NonEmpty(chunks)
    ensures Follows(cfg, s, After(cfg, s, chunks), |chunks|)
    decreases |chunks|
  {
    if chunks != [] {
      var s1 := AfterRecord(cfg, s, chunks[0]);
      assert chunks[0] != [];
      assert Follows(cfg, s, s1, 1);
      if |chunks| > 1 {
        AfterFollows(cfg, s1, chunks[1..]);
        FollowsChain(cfg, s, s1, After(cfg, s, chunks), 1, |chunks| - 1);
      }
    }
  }

  lemma FollowsChain(cfg: Config, a: Sender, b: Sender, c: Sender, m: nat, n: nat)
    requires Follows(cfg, a, b, m) && Follows(cfg, b, c, n) && n > 0
    ensures Follows(cfg, a, c, m + n)
  {
    AddModulo(a.epoch, b.updates - a.updates, c.updates - b.updates, U32);
    AddModulo(a.seqNo, m, n, U64);
  }

  lemma AddModulo(a: nat, m: nat, n: nat, modulus: nat)
    requires modulus == U32 || modulus == U64
    ensures ((a + m) % modulus + n) % modulus == (a + (m + n)) % modulus
  {
  }

  /** A rotation happens only once its byte threshold is reached. */
  ghost predicate Paid(cfg: Config, s: Sender) {
    cfg.rotateAfter > 0 ==> cfg.rotateAfter * s.updates <= s.bytes
  }

  lemma {:induction false} AfterPaid(cfg: Config, s: Sender, chunks: seq<Bytes>)
    requires Paid(cfg, s)
    ensures Paid(cfg, After(cfg, s, chunks))
    decreases |chunks|
  {
    if chunks != [] {
      AfterPaid(cfg, AfterRecord(cfg, s, chunks[0]), chunks[1..]);
    }
  }

  lemma {:induction false} SendAt(cfg: Config, s: Sender, chunks: seq<Bytes>, k: nat)
    requires k < |chunks|
    ensures SendAll(cfg, s, chunks)[k] == Seal(cfg, After(cfg, s, chunks[..k]), chunks[k])
    decreases k
  {
    if k > 0 {
      SendAt(cfg, AfterRecord(cfg, s, chunks[0]), chunks[1..], k - 1);
      assert chunks[1..][..k - 1] == chunks[..k][1..];
    }
  }

  /**
   A connection's sender: it starts with no bytes counted and no rotation done.
   The threshold is a 64-bit number; with rotation off, only the 64-bit sequence
   number keeps records apart, so it must not run through.
   */
  ghost predicate Starts(cfg: Config, s: Sender, chunks: seq<Bytes>) {
    && s.bytes == 0 && s.updates == 0 && NonEmpty(chunks)
    && cfg.rotateAfter < U64 && (cfg.rotateAfter <= 0 ==> |chunks| < U64)
  }

  lemma SplitAfter(cfg: Config, s: Sender, chunks: seq<Bytes>, i: nat, j: nat)
    requires i <= j <= |chunks|
    ensures After(cfg, s, chunks[..j]) == After(cfg, After(cfg, s, chunks[..i]), chunks[i..j])
  {
    assert chunks[..j] == chunks[..i] + chunks[i..j];
    SendAllConcat(cfg, s, chunks[..i], chunks[i..j]);
  }

  /** While the epoch stays the same, at most one threshold's worth of bytes is sent, a byte or more per record. */
  lemma EpochRunIsShort(threshold: nat, updates: nat, before: nat, after: nat, records: nat)
    requires threshold * updates <= before && before + records <= after < threshold * (updates + 1)
    ensures records < threshold
  {
    assert threshold * (updates + 1) == threshold * updates + threshold;
  }

  /** The sender's state before record i and before record j. */
  lemma StatesBetween(cfg: Config, s: Sender, chunks: seq<Bytes>, i: nat, j: nat)
    requires Starts(cfg, s, chunks) && i < j < |chunks|
    ensures var a, b := After(cfg, s, chunks[..i]), After(cfg, s, chunks[..j]);
      Follows(cfg, a, b, j - i) && (a.updates == b.updates ==> j - i < U64 - 1)
  {
    var a, b := After(cfg, s, chunks[..i]), After(cfg, s, chunks[..j]);
    SplitAfter(cfg, s, chunks, i, j);
    AfterFollows(cfg, a, chunks[i..j]);
    AfterPaid(cfg, s, chunks[..i]);
    if a.updates == b.updates && cfg.rotateAfter > 0 {
      EpochRunIsShort(cfg.rotateAfter, a.updates, a.bytes, b.bytes, j - i);
    }
  }

  lemma UpdatesBounded(cfg: Config, s: Sender, chunks: seq<Bytes>, j: nat)
    requires j <= |chunks|
    ensures After(cfg, s, chunks[..j]).updates <= After(cfg, s, chunks).updates
  {
    SplitAfter(cfg, s, chunks, j, |chunks|);
    assert chunks[..|chunks|] == chunks;
    UpdatesMonotone(cfg, After(cfg, s, chunks[..j]), chunks[j..|chunks|]);
  }

  lemma {:induction false} UpdatesMonotone(cfg: Config, s: Sender, chunks: seq<Bytes>)
    ensures s.updates <= After(cfg, s, chunks).updates
    decreases |chunks|
  {
    if chunks != [] {
      UpdatesMonotone(cfg, AfterRecord(cfg, s, chunks[0]), chunks[1..]);
    }
  }

  /** The (epoch, sequence) header is the nonce: a sender never uses one twice, whatever it writes. */
  lemma NonceNeverReused(cfg: Config, s: Sender, chunks: seq<Bytes>, i: nat, j: nat)
    requires Starts(cfg, s, chunks) && i < j < |chunks|
    requires After(cfg, s, chunks).updates < U32
    ensures var f, g := SendAll(cfg, s, chunks)[i], SendAll(cfg, s, chunks)[j];
      f.epoch != g.epoch || f.seqNo != g.seqNo
  {
    SendAt(cfg, s, chunks, i);
    SendAt(cfg, s, chunks, j);
    StatesBetween(cfg, s, chunks, i, j);
    UpdatesBounded(cfg, s, chunks, j);
  }

  // ---------------------------------------------------------------------------
  // The receiver, against any input

  /** Each accepted frame passed the ordering check in the state its predecessor left. */
  ghost predicate Linked(r: Receiver, frames: seq<Frame>)
    decreases |frames|
  {
    frames == [] ||
    (frames[0].Frame? && InOrder(r, frames[0].epoch, frames[0].seqNo) && Linked(Advance(r, frames[0]), frames[1..]))
  }

  lemma {:induction false} AcceptedLinked(base: nat, r: Receiver, frames: seq<Frame>)
    ensures Linked(r, Accepted(base, r, frames))
    decreases |frames|
  {
    if frames != [] {
      if Authenticate(base, r, frames[0]).Some? {
        AcceptedLinked(base, Advance(r, frames[0]), frames[1..]);
        var rest := Accepted(base, Advance(r, frames[0]), frames[1..]);
        assert ([frames[0]] + rest)[1..] == rest;
      } else {
        AcceptedLinked(base, r, frames[1..]);
      }
    }
  }

  lemma {:induction false} LinkedOrder(r: Receiver, frames: seq<Frame>, k: nat)
    requires Linked(r, frames) && r.initialized && k < |frames|
    ensures frames[k].Frame? && r.epoch <= frames[k].epoch
    ensures frames[k].epoch == r.epoch ==> frames[k].seqNo == (r.seqNo + k) % U64
    decreases k
  {
    if k > 0 {
      LinkedOrder(Advance(r, frames[0]), frames[1..], k - 1);
    }
  }

  lemma {:induction false} LinkedFrom(r: Receiver, frames: seq<Frame>, i: nat) returns (r': Receiver)
    requires Linked(r, frames) && i < |frames|
    ensures frames[i].Frame? && Linked(r', frames[i + 1..])
    ensures r'.initialized && r'.epoch == frames[i].epoch && r'.seqNo == (frames[i].seqNo + 1) % U64
    decreases i
  {
    if i == 0 {
      r' := Advance(r, frames[0]);
    } else {
      r' := LinkedFrom(Advance(r, frames[0]), frames[1..], i - 1);
      assert frames[1..][i..] == frames[i + 1..];
    }
  }

  /**
   For any incoming frames, genuine or not, epochs of accepted frames never go
   back, and a header is accepted again only after 2^64 records of one epoch.
   */
  lemma AcceptedHeadersNeverRepeat(base: nat, frames: seq<Frame>, i: nat, j: nat)
    requires i < j < |Accepted(base, FRESH, frames)|
    ensures var f, g := Accepted(base, FRESH, frames)[i], Accepted(base, FRESH, frames)[j];
      && f.epoch <= g.epoch
      && (f.epoch == g.epoch && f.seqNo == g.seqNo ==> j - i >= U64)
  {
    var accepted := Accepted(base, FRESH, frames);
    AcceptedLinked(base, FRESH, frames);
    var r := LinkedFrom(FRESH, accepted, i);
    LinkedOrder(r, accepted[i + 1..], j - i - 1);
    assert accepted[i + 1..][j - i - 1] == accepted[j];
    if accepted[i].epoch == accepted[j].epoch && accepted[i].seqNo == accepted[j].seqNo {
      SameResidue(accepted[i].seqNo, j - i);
    }
  }

  /** A counter of 64 bits comes back to its value only after 2^64 steps. */
  lemma SameResidue(a: u64, d: nat)
    requires d > 0 && a == ((a + 1) % U64 + (d - 1)) % U64
    ensures d >= U64
  {
  }

  // ---------------------------------------------------------------------------
  // The receiver, against an attacker who cannot forge

  /** Whatever arrives under the peer's key was sealed by the peer. */
  ghost predicate Unforged(base: nat, frames: seq<Frame>, sent: seq<Frame>) {
    forall f <- frames :: f.Frame? && f.cipher.Sealed? && f.cipher.key.base == base ==>
      exists i :: 0 <= i < |sent| && sent[i].Frame? && sent[i].cipher == f.cipher
  }

  /** Rotations stay below the end of the 32-bit epoch counter. */
  ghost predicate NoWrap(cfg: Config, s: Sender, chunks: seq<Bytes>) {
    s.epoch + After(cfg, s, chunks).updates < U32
  }

  /** Below the end of the counter, epoch and rotation count move together. */
  ghost predicate Below(s: Sender, limit: nat) {
    s.updates <= limit && s.epoch + (limit - s.updates) < U32
  }

  lemma {:induction false} EpochOffset(cfg: Config, s: Sender, chunks: seq<Bytes>, limit: nat)
    requires Below(s, limit) && After(cfg, s, chunks).updates <= limit
    ensures var e := After(cfg, s, chunks); Below(e, limit) && e.epoch - e.updates == s.epoch - s.updates
    decreases |chunks|
  {
    if chunks != [] {
      var next := AfterRecord(cfg, s, chunks[0]);
      UpdatesMonotone(cfg, next, chunks[1..]);
      OneOffset(cfg, s, chunks[0], limit);
      EpochOffset(cfg, next, chunks[1..], limit);
    }
  }

  lemma OneOffset(cfg: Config, s: Sender, chunk: Bytes, limit: nat)
    requires Below(s, limit) && AfterRecord(cfg, s, chunk).updates <= limit
    ensures var e := AfterRecord(cfg, s, chunk); Below(e, limit) && e.epoch - e.updates == s.epoch - s.updates
  {
  }

  /** The epoch of a state is the start epoch plus its rotations, and both grow with the record number. */
  lemma EpochAt(cfg: Config, s: Sender, chunks: seq<Bytes>, i: nat)
    requires Starts(cfg, s, chunks) && NoWrap(cfg, s, chunks) && i < |chunks|
    ensures var a := After(cfg, s, chunks[..i]); a.epoch == s.epoch + a.updates && SendAll(cfg, s, chunks)[i] == Seal(cfg, a, chunks[i])
  {
    SendAt(cfg, s, chunks, i);
    UpdatesBounded(cfg, s, chunks, i);
    EpochOffset(cfg, s, chunks[..i], After(cfg, s, chunks).updates);
  }

  /** The header the receiver wants next, or a later epoch, is found only later in what was sent. */
  lemma LaterInSent(cfg: Config, s: Sender, chunks: seq<Bytes>, i: nat, j: nat)
    requires Starts(cfg, s, chunks) && NoWrap(cfg, s, chunks) && i < |chunks| && j < |chunks|
    requires var f, g := SendAll(cfg, s, chunks)[i], SendAll(cfg, s, chunks)[j];
      f.epoch < g.epoch || (f.epoch == g.epoch && g.seqNo == (f.seqNo + 1) % U64)
    ensures i < j
    ensures SendAll(cfg, s, chunks)[i].epoch == SendAll(cfg, s, chunks)[j].epoch ==> j == i + 1
  {
    EpochAt(cfg, s, chunks, i);
    EpochAt(cfg, s, chunks, j);
    if i < j {
      ForwardInSent(cfg, s, chunks, i, j);
    } else if j < i {
      BackwardInSent(cfg, s, chunks, j, i);
    }
  }

  lemma ForwardInSent(cfg: Config, s: Sender, chunks: seq<Bytes>, i: nat, j: nat)
    requires Starts(cfg, s, chunks) && NoWrap(cfg, s, chunks) && i < j < |chunks|
    ensures var a, b := After(cfg, s, chunks[..i]), After(cfg, s, chunks[..j]);
      a.epoch == b.epoch && b.seqNo == (a.seqNo + 1) % U64 ==> j == i + 1
  {
    EpochAt(cfg, s, chunks, i);
    EpochAt(cfg, s, chunks, j);
    StatesBetween(cfg, s, chunks, i, j);
    var a, b := After(cfg, s, chunks[..i]), After(cfg, s, chunks[..j]);
    if a.epoch == b.epoch { NextResidue(a.seqNo, j - i); }
  }

  lemma BackwardInSent(cfg: Config, s: Sender, chunks: seq<Bytes>, j: nat, i: nat)
    requires Starts(cfg, s, chunks) && NoWrap(cfg, s, chunks) && j < i < |chunks|
    ensures var a, b := After(cfg, s, chunks[..i]), After(cfg, s, chunks[..j]);
      b.epoch <= a.epoch && (a.epoch == b.epoch ==> b.seqNo != (a.seqNo + 1) % U64)
  {
    EpochAt(cfg, s, chunks, i);
    EpochAt(cfg, s, chunks, j);
    StatesBetween(cfg, s, chunks, j, i);
    var a, b := After(cfg, s, chunks[..i]), After(cfg, s, chunks[..j]);
    if a.epoch == b.epoch { NextResidue(b.seqNo, i - j); }
  }

  /** Fewer than 2^64 steps apart, a counter's successor is one step later and never earlier. */
  lemma NextResidue(a: u64, d: nat)
    requires 0 < d < U64
    ensures (a + d) % U64 == (a + 1) % U64 ==> d == 1
    ensures a != ((a + d) % U64 + 1) % U64 || d == U64 - 1
  {
  }

  /** The receiver's expectation comes from the sent record `last`. */
  ghost predicate At(r: Receiver, sent: seq<Frame>, last: int) {
    r.initialized ==>
      && 0 <= last < |sent| && sent[last].Frame?
      && r.epoch == sent[last].epoch && r.seqNo == (sent[last].seqNo + 1) % U64
  }

  predicate SameEpoch(f: Frame, g: Frame) {
    f.Frame? && g.Frame? && f.epoch == g.epoch
  }

  /** `places` are the positions, in the sent sequence, of the accepted frames. */
  ghost predicate Places(accepted: seq<Frame>, sent: seq<Frame>, places: seq<nat>, last: int) {
    && |places| == |accepted|
    && (forall k | 0 <= k < |places| :: last < places[k] < |sent| && accepted[k] == sent[places[k]])
    && (forall k, m | 0 <= k < m < |places| :: places[k] < places[m])
    && (forall k | 0 < k < |places| :: SameEpoch(accepted[k - 1], accepted[k]) ==> places[k] == places[k - 1] + 1)
  }

  lemma PlacesCons(f: Frame, accepted: seq<Frame>, sent: seq<Frame>, i: nat, places: seq<nat>, last: int)
    requires Places(accepted, sent, places, i) && last < i < |sent| && sent[i] == f
    requires places != [] && SameEpoch(f, accepted[0]) ==> places[0] == i + 1
    ensures Places([f] + accepted, sent, [i] + places, last)
  {
    var all, at := [f] + accepted, [i] + places;
    forall k | 0 < k < |at| && SameEpoch(all[k - 1], all[k]) ensures at[k] == at[k - 1] + 1 {
      if k > 1 {
        assert all[k - 1] == accepted[k - 2] && all[k] == accepted[k - 1];
        assert at[k] == places[k - 1] && at[k - 1] == places[k - 2];
      }
    }
    forall k | 0 <= k < |at| ensures last < at[k] < |sent| && all[k] == sent[at[k]] {
      if k > 0 { assert at[k] == places[k - 1] && all[k] == accepted[k - 1]; }
    }
  }

  /** The accepted frame is one of those sent, behind the last accepted one and next to it in the same epoch. */
  lemma NextPlace(cfg: Config, s: Sender, chunks: seq<Bytes>, r: Receiver, f: Frame, last: int) returns (i: nat)
    requires Starts(cfg, s, chunks) && NoWrap(cfg, s, chunks)
    requires Unforged(cfg.base, [f], SendAll(cfg, s, chunks)) && Authenticate(cfg.base, r, f).Some?
    requires At(r, SendAll(cfg, s, chunks), last) && (!r.initialized ==> last == -1)
    ensures i < |chunks| && SendAll(cfg, s, chunks)[i] == f && last < i && At(Advance(r, f), SendAll(cfg, s, chunks), i)
    ensures r.initialized && f.epoch == r.epoch ==> i == last + 1
  {
    var sent, one := SendAll(cfg, s, chunks), [f];
    assert one[0] == f;
    i :| 0 <= i < |sent| && sent[i].Frame? && sent[i].cipher == f.cipher;
    SendAt(cfg, s, chunks, i);
    if r.initialized { LaterInSent(cfg, s, chunks, last, i); }
  }

  lemma {:induction false} FindPlaces(
    cfg: Config, s: Sender, chunks: seq<Bytes>, r: Receiver, frames: seq<Frame>, last: int) returns (places: seq<nat>)
    requires Starts(cfg, s, chunks) && NoWrap(cfg, s, chunks)
    requires Unforged(cfg.base, frames, SendAll(cfg, s, chunks))
    requires At(r, SendAll(cfg, s, chunks), last) && (!r.initialized ==> last == -1)
    ensures Places(Accepted(cfg.base, r, frames), SendAll(cfg, s, chunks), places, last)
    ensures r.initialized && places != [] && Accepted(cfg.base, r, frames)[0].epoch == r.epoch ==> places[0] == last + 1
    decreases |frames|
  {
    var sent := SendAll(cfg, s, chunks);
    if frames == [] {
      places := [];
    } else if Authenticate(cfg.base, r, frames[0]).None? {
      places := FindPlaces(cfg, s, chunks, r, frames[1..], last);
    } else {
      var f := frames[0];
      var i := NextPlace(cfg, s, chunks, r, f, last);
      var rest := FindPlaces(cfg, s, chunks, Advance(r, f), frames[1..], i);
      PlacesCons(f, Accepted(cfg.base, Advance(r, f), frames[1..]), sent, i, rest, last);
      places := [i] + rest;
    }
  }

  /**
   With an ideal AEAD the delivered records are, in order and without
   duplicates, some of those sent, whatever is dropped, replayed, reordered or
   injected; between two accepted records of one epoch none is skipped.
   */
  lemma DeliveredIsSubsequence(cfg: Config, s: Sender, chunks: seq<Bytes>, frames: seq<Frame>) returns (places: seq<nat>)
    requires Starts(cfg, s, chunks) && NoWrap(cfg, s, chunks)
    requires Unforged(cfg.base, frames, SendAll(cfg, s, chunks))
    ensures Places(Accepted(cfg.base, FRESH, frames), SendAll(cfg, s, chunks), places, -1)
  {
    places := FindPlaces(cfg, s, chunks, FRESH, frames, -1);
  }

  // ---------------------------------------------------------------------------
  // Losses

  /** A sender's frames from a state on, as long as the epoch has not run through before the last of them. */
  ghost predicate EpochLasts(cfg: Config, from: Sender, chunks: seq<Bytes>)
    requires chunks != []
  {
    var before := After(cfg, from, chunks[..|chunks| - 1]);
    from.epoch + (before.updates - from.updates) < U32
  }

  lemma EpochLastsLater(cfg: Config, from: Sender, chunks: seq<Bytes>)
    requires |chunks| > 1
    ensures var next := AfterRecord(cfg, from, chunks[0]);
      var before := After(cfg, from, chunks[..|chunks| - 1]);
      && before == After(cfg, next, chunks[1..][..|chunks| - 2]) && next.updates <= before.updates
      && (EpochLasts(cfg, from, chunks) ==> EpochLasts(cfg, next, chunks[1..]) && InSync(Advance(FRESH, Seal(cfg, from, chunks[0])), next))
  {
    var next := AfterRecord(cfg, from, chunks[0]);
    BeforeLast(cfg, from, chunks);
    UpdatesMonotone(cfg, next, chunks[1..][..|chunks| - 2]);
    NextInSync(cfg, from, chunks[0], After(cfg, from, chunks[..|chunks| - 1]).updates);
  }

  lemma BeforeLast(cfg: Config, from: Sender, chunks: seq<Bytes>)
    requires |chunks| > 1
    ensures After(cfg, from, chunks[..|chunks| - 1])
         == After(cfg, AfterRecord(cfg, from, chunks[0]), chunks[1..][..|chunks| - 2])
  {
    assert chunks[..|chunks| - 1][1..] == chunks[1..][..|chunks| - 2];
  }

  /** While the epoch has not run through, a rotation moves the epoch and its count together. */
  lemma NextInSync(cfg: Config, from: Sender, chunk: Bytes, limit: int)
    ensures var next := AfterRecord(cfg, from, chunk);
      next.updates <= limit && from.epoch + (limit - from.updates) < U32 ==>
        next.epoch - next.updates == from.epoch - from.updates && InSync(Advance(FRESH, Seal(cfg, from, chunk)), next)
  {
  }

  /** A receiver in step with the sender takes everything. */
  lemma {:induction false} AllAccepted(cfg: Config, r: Receiver, from: Sender, chunks: seq<Bytes>)
    requires chunks != [] ==> InSync(r, from) && EpochLasts(cfg, from, chunks)
    ensures Accepted(cfg.base, r, SendAll(cfg, from, chunks)) == SendAll(cfg, from, chunks)
    decreases |chunks|
  {
    if chunks != [] {
      var f, next := Seal(cfg, from, chunks[0]), AfterRecord(cfg, from, chunks[0]);
      var sent := SendAll(cfg, from, chunks);
      assert sent[0] == f && sent[1..] == SendAll(cfg, next, chunks[1..]);
      if |chunks| > 1 { EpochLastsLater(cfg, from, chunks); }
      AllAccepted(cfg, Advance(r, f), next, chunks[1..]);
    }
  }

  lemma {:induction false} AcceptedLength(base: nat, r: Receiver, frames: seq<Frame>)
    ensures |Accepted(base, r, frames)| <= |frames|
    decreases |frames|
  {
    if frames != [] {
      if Authenticate(base, r, frames[0]).Some? {
        AcceptedLength(base, Advance(r, frames[0]), frames[1..]);
      } else {
        AcceptedLength(base, r, frames[1..]);
      }
    }
  }

  /** At the end of the epoch counter the record after the rotation is refused. */
  lemma EpochWrapIsRefused(cfg: Config, s: Sender, plain: Bytes, next: Bytes, r: Receiver)
    requires s.epoch == U32 - 1 && r.initialized && r.epoch == s.epoch
    requires AfterRecord(cfg, s, plain).updates == s.updates + 1
    ensures Authenticate(cfg.base, r, Seal(cfg, AfterRecord(cfg, s, plain), next)) == None
  {
    assert AfterRecord(cfg, s, plain).epoch == 0;
  }

  lemma {:induction false} WrapBreaks(cfg: Config, r: Receiver, from: Sender, chunks: seq<Bytes>)
    requires chunks != [] && !EpochLasts(cfg, from, chunks)
    ensures |Accepted(cfg.base, r, SendAll(cfg, from, chunks))| < |chunks|
    decreases |chunks|
  {
    var f, next := Seal(cfg, from, chunks[0]), AfterRecord(cfg, from, chunks[0]);
    var sent := SendAll(cfg, from, chunks);
    assert |chunks| > 1 && sent[0] == f && sent[1..] == SendAll(cfg, next, chunks[1..]);
    if Authenticate(cfg.base, r, f).None? {
      AcceptedLength(cfg.base, r, sent[1..]);
    } else if next.epoch == (from.epoch as int) + (next.updates - from.updates) {
      EpochLastsLater(cfg, from, chunks);
      WrapBreaks(cfg, Advance(r, f), next, chunks[1..]);
    } else {
      EpochWrapIsRefused(cfg, from, chunks[0], chunks[1], Advance(r, f));
      assert sent[1] == Seal(cfg, next, chunks[1]) == sent[1..][0];
      AcceptedLength(cfg.base, Advance(r, f), sent[1..][1..]);
    }
  }

  /**
   The exact condition on the 32-bit epoch: everything a sender seals is accepted
   over a reliable connection if and only if the epoch has not run through before
   the last record; a rotation behind that does no harm.
   */
  lemma ReliableIffEpochLasts(cfg: Config, s: Sender, chunks: seq<Bytes>)
    requires s.updates == 0 && chunks != []
    ensures Accepted(cfg.base, FRESH, SendAll(cfg, s, chunks)) == SendAll(cfg, s, chunks)
      <==> s.epoch + After(cfg, s, chunks[..|chunks| - 1]).updates < U32
  {
    if EpochLasts(cfg, s, chunks) {
      AllAccepted(cfg, FRESH, s, chunks);
    } else {
      WrapBreaks(cfg, FRESH, s, chunks);
    }
  }

  /** Losing records in front is never noticed: the first record a receiver sees may be any. */
  lemma LeadingLossIsSilent(cfg: Config, s: Sender, chunks: seq<Bytes>, k: nat)
    requires s.updates == 0 && NoWrap(cfg, s, chunks) && k <= |chunks|
    ensures Accepted(cfg.base, FRESH, SendAll(cfg, s, chunks)[k..]) == SendAll(cfg, s, chunks)[k..]
  {
    SentBehind(cfg, s, chunks, k);
    if k < |chunks| {
      LastsFrom(cfg, s, chunks, k);
      AllAccepted(cfg, FRESH, After(cfg, s, chunks[..k]), chunks[k..]);
    }
  }

  lemma SentBehind(cfg: Config, s: Sender, chunks: seq<Bytes>, k: nat)
    requires k <= |chunks|
    ensures SendAll(cfg, s, chunks)[k..] == SendAll(cfg, After(cfg, s, chunks[..k]), chunks[k..])
  {
    assert chunks == chunks[..k] + chunks[k..];
    SendAllConcat(cfg, s, chunks[..k], chunks[k..]);
  }

  lemma LastsFrom(cfg: Config, s: Sender, chunks: seq<Bytes>, k: nat)
    requires s.updates == 0 && NoWrap(cfg, s, chunks) && k < |chunks|
    ensures EpochLasts(cfg, After(cfg, s, chunks[..k]), chunks[k..])
  {
    var mid, rest := After(cfg, s, chunks[..k]), chunks[k..];
    UpdatesBounded(cfg, s, chunks, k);
    EpochOffset(cfg, s, chunks[..k], After(cfg, s, chunks).updates);
    assert chunks == chunks[..k] + rest;
    SendAllConcat(cfg, s, chunks[..k], rest);
    UpdatesBounded(cfg, mid, rest, |rest| - 1);
  }

  /** The accepted records are one stretch of those sent. */
  ghost predicate Contiguous(accepted: seq<Frame>, sent: seq<Frame>) {
    exists k: nat :: StretchAt(accepted, sent, k)
  }

  predicate StretchAt(part: seq<Frame>, sent: seq<Frame>, k: nat) {
    k + |part| <= |sent| && part == sent[k..k + |part|]
  }

  /** Whatever happens to the frames, a loss between two accepted records is noticed. */
  ghost predicate LossIsNoticed(cfg: Config, s: Sender, chunks: seq<Bytes>) {
    forall frames | Unforged(cfg.base, frames, SendAll(cfg, s, chunks)) ::
      Contiguous(Accepted(cfg.base, FRESH, frames), SendAll(cfg, s, chunks))
  }

  /** Positions that follow each other make one stretch. */
  lemma StretchOf(accepted: seq<Frame>, sent: seq<Frame>, places: seq<nat>)
    requires Places(accepted, sent, places, -1) && forall k | 0 < k < |places| :: places[k] == places[k - 1] + 1
    ensures Contiguous(accepted, sent)
  {
    if accepted == [] {
      assert StretchAt(accepted, sent, 0);
    } else {
      var n := |places| - 1;
      StepsOfOne(places, n);
      var k := places[0];
      forall i | 0 <= i < |accepted| ensures accepted[i] == sent[k..k + |accepted|][i] { StepsOfOne(places, i); }
      assert StretchAt(accepted, sent, k);
    }
  }

  lemma {:induction false} StepsOfOne(places: seq<nat>, i: nat)
    requires i < |places| && forall k | 0 < k < |places| :: places[k] == places[k - 1] + 1
    ensures places[i] == places[0] + i
  {
    if i > 0 { StepsOfOne(places, i - 1); }
  }

  /** With at most two records, or no rotation before the last one, there is nothing a receiver can skip. */
  lemma NoSkip(cfg: Config, s: Sender, chunks: seq<Bytes>, frames: seq<Frame>)
    requires Starts(cfg, s, chunks) && NoWrap(cfg, s, chunks) && Unforged(cfg.base, frames, SendAll(cfg, s, chunks))
    requires |chunks| <= 2 || After(cfg, s, chunks[..|chunks| - 1]).updates == 0
    ensures Contiguous(Accepted(cfg.base, FRESH, frames), SendAll(cfg, s, chunks))
  {
    var accepted, sent := Accepted(cfg.base, FRESH, frames), SendAll(cfg, s, chunks);
    var places := DeliveredIsSubsequence(cfg, s, chunks, frames);
    forall k | 0 < k < |places| ensures places[k] == places[k - 1] + 1 {
      assert places[k - 1] < places[k] < |chunks|;
      if |chunks| > 2 {
        OneEpoch(cfg, s, chunks, places[k - 1]);
        OneEpoch(cfg, s, chunks, places[k]);
        assert SameEpoch(accepted[k - 1], accepted[k]);
      }
    }
    StretchOf(accepted, sent, places);
  }

  lemma OneEpoch(cfg: Config, s: Sender, chunks: seq<Bytes>, i: nat)
    requires Starts(cfg, s, chunks) && NoWrap(cfg, s, chunks) && i < |chunks|
    requires After(cfg, s, chunks[..|chunks| - 1]).updates == 0
    ensures SendAll(cfg, s, chunks)[i].epoch == s.epoch
  {
    EpochAt(cfg, s, chunks, i);
    UpdatesBounded(cfg, s, chunks[..|chunks| - 1], i);
    assert chunks[..|chunks| - 1][..i] == chunks[..i];
  }

  /** Two records with others between them, the later one a few epochs on, are accepted as they are. */
  lemma SkipIsAccepted(cfg: Config, s: Sender, chunks: seq<Bytes>, i: nat, j: nat)
    requires Starts(cfg, s, chunks) && NoWrap(cfg, s, chunks) && i + 1 < j < |chunks|
    requires var a, b := After(cfg, s, chunks[..i]), After(cfg, s, chunks[..j]); a.updates < b.updates <= a.updates + MAX_JUMP
    ensures !LossIsNoticed(cfg, s, chunks)
  {
    var sent := SendAll(cfg, s, chunks);
    EpochAt(cfg, s, chunks, i);
    EpochAt(cfg, s, chunks, j);
    PairIsAccepted(cfg.base, sent[i], sent[j]);
    forall k: nat ensures !StretchAt([sent[i], sent[j]], sent, k) { NoStretch(cfg, s, chunks, i, j, k); }
    assert Unforged(cfg.base, [sent[i], sent[j]], sent);
  }

  lemma PairIsAccepted(base: nat, f: Frame, g: Frame)
    requires Authenticate(base, FRESH, f).Some? && Authenticate(base, Advance(FRESH, f), g).Some?
    ensures Accepted(base, FRESH, [f, g]) == [f, g]
  {
    assert [f, g][1..] == [g] && Accepted(base, Advance(FRESH, f), [g]) == [g] + [];
  }

  lemma NoStretch(cfg: Config, s: Sender, chunks: seq<Bytes>, i: nat, j: nat, k: nat)
    requires Starts(cfg, s, chunks) && NoWrap(cfg, s, chunks) && i + 1 < j < |chunks|
    ensures var sent := SendAll(cfg, s, chunks); !StretchAt([sent[i], sent[j]], sent, k)
  {
    var sent := SendAll(cfg, s, chunks);
    var two := [sent[i], sent[j]];
    if StretchAt(two, sent, k) {
      assert sent[k] == sent[k..k + |two|][0] && sent[k + 1] == sent[k..k + |two|][1];
      HeadersDiffer(cfg, s, chunks, i, k);
      HeadersDiffer(cfg, s, chunks, j, k + 1);
    }
  }

  lemma HeadersDiffer(cfg: Config, s: Sender, chunks: seq<Bytes>, i: nat, k: nat)
    requires Starts(cfg, s, chunks) && NoWrap(cfg, s, chunks) && i < |chunks| && k < |chunks|
    requires SendAll(cfg, s, chunks)[i] == SendAll(cfg, s, chunks)[k]
    ensures i == k
  {
    if i < k {
      NonceNeverReused(cfg, s, chunks, i, k);
    } else if k < i {
      NonceNeverReused(cfg, s, chunks, k, i);
    }
  }

  /** One record rotates at most once. */
  lemma OneStep(cfg: Config, s: Sender, chunks: seq<Bytes>, i: nat)
    requires i < |chunks|
    ensures var a, b := After(cfg, s, chunks[..i]), After(cfg, s, chunks[..i + 1]); a.updates <= b.updates <= a.updates + 1
  {
    SplitAfter(cfg, s, chunks, i, i + 1);
    var one := chunks[i..i + 1];
    assert one[0] == chunks[i] && one[1..] == [];
  }

  /** The first record of the first new epoch. */
  lemma {:induction false} FirstRotation(cfg: Config, s: Sender, chunks: seq<Bytes>, n: nat) returns (m: nat)
    requires s.updates == 0 && n <= |chunks| && After(cfg, s, chunks[..n]).updates > 0
    ensures 0 < m <= n && After(cfg, s, chunks[..m]).updates == 1 && After(cfg, s, chunks[..m - 1]).updates == 0
  {
    assert chunks[..0] == [] && n > 0;
    OneStep(cfg, s, chunks, n - 1);
    if After(cfg, s, chunks[..n - 1]).updates == 0 {
      m := n;
    } else {
      m := FirstRotation(cfg, s, chunks, n - 1);
    }
  }

  /**
   When a loss in the middle is noticed: if and only if there are at most two
   records, or no rotation before the last one. Otherwise a receiver can be made
   to skip records at a rotation, on either side of it, without any error.
   */
  lemma LossIsNoticedIff(cfg: Config, s: Sender, chunks: seq<Bytes>)
    requires Starts(cfg, s, chunks) && NoWrap(cfg, s, chunks)
    ensures LossIsNoticed(cfg, s, chunks)
      <==> |chunks| <= 2 || After(cfg, s, chunks[..|chunks| - 1]).updates == 0
  {
    if |chunks| <= 2 || After(cfg, s, chunks[..|chunks| - 1]).updates == 0 {
      forall frames | Unforged(cfg.base, frames, SendAll(cfg, s, chunks))
        ensures Contiguous(Accepted(cfg.base, FRESH, frames), SendAll(cfg, s, chunks))
      {
        NoSkip(cfg, s, chunks, frames);
      }
    } else {
      var m := FirstRotation(cfg, s, chunks, |chunks| - 1);
      if m >= 2 {
        OneStep(cfg, s, chunks, m - 2);
        SkipIsAccepted(cfg, s, chunks, m - 2, m);
      } else {
        assert chunks[..0] == [];
        OneStep(cfg, s, chunks, 1);
        SkipIsAccepted(cfg, s, chunks, 0, 2);
      }
    }
  }

  /** The shortest such run: three records, a rotation after each, the middle one lost. */
  lemma LossAtRotationIsSilent()
    ensures var cfg, s := Config(1, 1, k => 7), Sender(5, 9, 0, 0);
      var sent := SendAll(cfg, s, [[10], [20], [30]]);
      Accepted(1, FRESH, [sent[0], sent[2]]) == [sent[0], sent[2]]
  {
    var cfg, s := Config(1, 1, k => 7), Sender(5, 9, 0, 0);
    var chunks: seq<Bytes> := [[10], [20], [30]];
    var sent := SendAll(cfg, s, chunks);
    var s1 := AfterRecord(cfg, s, [10]);
    var s2 := AfterRecord(cfg, s1, [20]);
    assert s1 == Sender(6, 7, 1, 1) && s2 == Sender(7, 7, 2, 2);
    assert chunks[1..] == [[20], [30]] && chunks[1..][1..] == [[30]];
    assert sent[0] == Seal(cfg, s, [10]) && sent[2] == Seal(cfg, s2, [30]);
    var r := Advance(FRESH, sent[0]);
    assert Accepted(1, r, [sent[2]]) == [sent[2]];
    assert [sent[0], sent[2]][1..] == [sent[2]];
  }

  // ---------------------------------------------------------------------------
  // Round trip over a reliable connection

  datatype Op = Write(buffers: seq<Bytes>) | Read(size: nat) | Copy(replies: seq<(int, bool)>)

  /** A sender, the frames on their way, a receiver, and the two plaintext histories. */
  datatype Link = Link(send: Sender, wire: seq<Frame>, recv: Receiver, written: Bytes, delivered: Bytes)

  function Apply(cfg: Config, l: Link, op: Op): Link {
    match op
    case Write(buffers) =>
      var chunks := Chunks(Flatten(buffers));
      l.(send := After(cfg, l.send, chunks),
         wire := l.wire + SendAll(cfg, l.send, chunks),
         written := l.written + Flatten(buffers))
    case Read(size) =>
      var o := ReadSome(cfg.base, l.recv, l.wire, size);
      l.(recv := o.recv, wire := o.wire, delivered := l.delivered + o.data)
    case Copy(replies) =>
      var o := WriteOut(cfg.base, l.recv, l.wire, replies);
      l.(recv := o.recv, wire := o.wire, delivered := l.delivered + o.data)
  }

  function Exec(cfg: Config, s: Sender, ops: seq<Op>): Link {
    if ops == [] then Link(s, [], FRESH, [], [])
    else Apply(cfg, Exec(cfg, s, ops[..|ops| - 1]), ops[|ops| - 1])
  }

  /** The receiver expects exactly what a sender in state s seals next. */
  ghost predicate InSync(r: Receiver, s: Sender) {
    r.initialized ==> (r.epoch == s.epoch && r.seqNo == s.seqNo) || r.epoch + 1 == s.epoch
  }

  /** The frames on the wire are `chunks` sealed from state `from`, and the receiver is ready for them. */
  ghost predicate Flight(cfg: Config, l: Link, from: Sender, chunks: seq<Bytes>, limit: nat) {
    && l.wire == SendAll(cfg, from, chunks) && l.send == After(cfg, from, chunks)
    && Below(from, limit) && l.send.updates <= limit
    && InSync(l.recv, from) && NonEmpty(chunks)
    && l.written == l.delivered + l.recv.held + Flatten(chunks)
  }

  lemma TakeFirst(cfg: Config, l: Link, from: Sender, chunks: seq<Bytes>, limit: nat)
    requires Flight(cfg, l, from, chunks, limit) && chunks != []
    ensures Authenticate(cfg.base, l.recv, l.wire[0]) == Some(chunks[0])
    ensures InSync(Advance(l.recv, l.wire[0]), AfterRecord(cfg, from, chunks[0]))
    ensures Below(AfterRecord(cfg, from, chunks[0]), limit)
    ensures l.wire[1..] == SendAll(cfg, AfterRecord(cfg, from, chunks[0]), chunks[1..])
    ensures l.send == After(cfg, AfterRecord(cfg, from, chunks[0]), chunks[1..])
    ensures Flatten(chunks) == chunks[0] + Flatten(chunks[1..])
  {
    UpdatesMonotone(cfg, AfterRecord(cfg, from, chunks[0]), chunks[1..]);
  }

  /** Handing out a part of the held record. */
  lemma DrainKeepsFlight(cfg: Config, l: Link, n: nat, from: Sender, chunks: seq<Bytes>, limit: nat)
    requires Flight(cfg, l, from, chunks, limit) && n <= |l.recv.held|
    ensures Flight(cfg, l.(recv := l.recv.(held := l.recv.held[n..]), delivered := l.delivered + l.recv.held[..n]),
                   from, chunks, limit)
  {
    assert l.recv.held == l.recv.held[..n] + l.recv.held[n..];
    ConcatAssoc(l.delivered, l.recv.held[..n], l.recv.held[n..]);
  }

  /** Taking the next record off the wire into the hold. */
  lemma HoldKeepsFlight(cfg: Config, l: Link, from: Sender, chunks: seq<Bytes>, limit: nat)
    requires Flight(cfg, l, from, chunks, limit) && chunks != [] && l.recv.held == []
    ensures Authenticate(cfg.base, l.recv, l.wire[0]) == Some(chunks[0])
    ensures Flight(cfg, l.(recv := Advance(l.recv, l.wire[0]).(held := chunks[0]), wire := l.wire[1..]),
                   AfterRecord(cfg, from, chunks[0]), chunks[1..], limit)
  {
    TakeFirst(cfg, l, from, chunks, limit);
    ConcatAssoc(l.delivered, chunks[0], Flatten(chunks[1..]));
    assert l.delivered + [] == l.delivered;
  }

  lemma ReadKeepsFlight(cfg: Config, l: Link, size: nat, from: Sender, chunks: seq<Bytes>, limit: nat)
    returns (from': Sender, chunks': seq<Bytes>)
    requires Flight(cfg, l, from, chunks, limit)
    ensures Flight(cfg, Apply(cfg, l, Read(size)), from', chunks', limit)
    ensures ReadSome(cfg.base, l.recv, l.wire, size).failed ==> l.wire == [] && l.delivered == l.written
  {
    from', chunks' := from, chunks;
    if size == 0 {
      assert l.delivered + [] == l.delivered;
    } else if l.recv.held != [] {
      DrainKeepsFlight(cfg, l, Min(size, |l.recv.held|), from, chunks, limit);
    } else if chunks != [] {
      HoldKeepsFlight(cfg, l, from, chunks, limit);
      from', chunks' := AfterRecord(cfg, from, chunks[0]), chunks[1..];
      var mid := l.(recv := Advance(l.recv, l.wire[0]).(held := chunks[0]), wire := l.wire[1..]);
      DrainKeepsFlight(cfg, mid, Min(size, |chunks[0]|), from', chunks', limit);
    } else {
      assert l.delivered + [] + [] == l.delivered;
    }
  }

  lemma {:induction false} CopyKeepsFlight(
    cfg: Config, l: Link, replies: seq<(int, bool)>, from: Sender, chunks: seq<Bytes>, limit: nat)
    returns (from': Sender, chunks': seq<Bytes>)
    requires Flight(cfg, l, from, chunks, limit)
    ensures Flight(cfg, Apply(cfg, l, Copy(replies)), from', chunks', limit)
    ensures !WriteOut(cfg.base, l.recv, l.wire, replies).failed ==>
      Apply(cfg, l, Copy(replies)).delivered == Apply(cfg, l, Copy(replies)).written
    decreases |chunks|, |l.recv.held|
  {
    from', chunks' := from, chunks;
    var held := l.recv.held;
    assert l.delivered + [] == l.delivered;
    if held == [] && chunks != [] {
      HoldKeepsFlight(cfg, l, from, chunks, limit);
      var mid := l.(recv := Advance(l.recv, l.wire[0]).(held := chunks[0]), wire := l.wire[1..]);
      from', chunks' := CopyKeepsFlight(cfg, mid, replies, AfterRecord(cfg, from, chunks[0]), chunks[1..], limit);
    } else if held != [] {
      var (n, err) := if replies == [] then (0, true) else replies[0];
      var taken := if n < 0 || n > |held| then 0 else n;
      DrainKeepsFlight(cfg, l, taken, from, chunks, limit);
      if !err && taken == |held| {
        var rest := if replies == [] then [] else replies[1..];
        var mid := l.(recv := l.recv.(held := held[taken..]), delivered := l.delivered + held[..taken]);
        from', chunks' := CopyKeepsFlight(cfg, mid, rest, from, chunks, limit);
        assert held[..taken] == held;
        ConcatAssoc(l.delivered, held, WriteOut(cfg.base, mid.recv, mid.wire, rest).data);
      }
    }
  }

  lemma WriteKeepsFlight(cfg: Config, l: Link, buffers: seq<Bytes>, from: Sender, chunks: seq<Bytes>, limit: nat)
    requires Flight(cfg, l, from, chunks, limit)
    requires Apply(cfg, l, Write(buffers)).send.updates <= limit
    ensures Flight(cfg, Apply(cfg, l, Write(buffers)), from, chunks + Chunks(Flatten(buffers)), limit)
  {
    var more := Chunks(Flatten(buffers));
    SendAllConcat(cfg, from, chunks, more);
    FlattenConcat(chunks, more);
    ConcatAssoc(l.delivered + l.recv.held, Flatten(chunks), Flatten(buffers));
  }

  /** The sender's rotation count never goes down, so the final count bounds all earlier ones. */
  lemma {:induction false} UpdatesGrow(cfg: Config, s: Sender, ops: seq<Op>, k: nat)
    requires k <= |ops|
    ensures Exec(cfg, s, ops[..k]).send.updates <= Exec(cfg, s, ops).send.updates
    decreases |ops|
  {
    if k < |ops| {
      UpdatesGrow(cfg, s, ops[..|ops| - 1], k);
      assert ops[..|ops| - 1][..k] == ops[..k];
      var l, op := Exec(cfg, s, ops[..|ops| - 1]), ops[|ops| - 1];
      if op.Write? {
        UpdatesMonotone(cfg, l.send, Chunks(Flatten(op.buffers)));
      }
    } else {
      assert ops[..k] == ops;
    }
  }

  lemma {:induction false} FlightHolds(cfg: Config, s: Sender, ops: seq<Op>, limit: nat)
    returns (from: Sender, chunks: seq<Bytes>)
    requires s.updates == 0 && Exec(cfg, s, ops).send.updates <= limit && s.epoch + limit < U32
    ensures Flight(cfg, Exec(cfg, s, ops), from, chunks, limit)
    decreases |ops|
  {
    if ops == [] {
      from, chunks := s, [];
    } else {
      var init, op := ops[..|ops| - 1], ops[|ops| - 1];
      UpdatesGrow(cfg, s, ops, |ops| - 1);
      var l := Exec(cfg, s, init);
      from, chunks := FlightHolds(cfg, s, init, limit);
      match op
      case Write(buffers) =>
        WriteKeepsFlight(cfg, l, buffers, from, chunks, limit);
        chunks := chunks + Chunks(Flatten(buffers));
      case Read(size) =>
        from, chunks := ReadKeepsFlight(cfg, l, size, from, chunks, limit);
      case Copy(replies) =>
        from, chunks := CopyKeepsFlight(cfg, l, replies, from, chunks, limit);
    }
  }

  /**
   For any writes, across any number of rotations, and any mix of Read sizes
   and WriteTo calls with short or failing destinations: what was delivered is
   a prefix of what was written, and all of it once nothing is held or on the wire.
   A further Read fails only when everything has been delivered.
   */
  lemma RoundTrip(cfg: Config, s: Sender, ops: seq<Op>)
    requires s.updates == 0 && s.epoch + Exec(cfg, s, ops).send.updates < U32
    ensures var l := Exec(cfg, s, ops);
      && l.delivered <= l.written
      && (l.recv.held == [] && l.wire == [] ==> l.delivered == l.written)
      && (forall size :: ReadSome(cfg.base, l.recv, l.wire, size).failed ==> l.delivered == l.written)
  {
    var l := Exec(cfg, s, ops);
    var from, chunks := FlightHolds(cfg, s, ops, l.send.updates);
    assert l.written == l.delivered + (l.recv.held + Flatten(chunks));
    forall size | ReadSome(cfg.base, l.recv, l.wire, size).failed ensures l.delivered == l.written {
      var _, _ := ReadKeepsFlight(cfg, l, size, from, chunks, l.send.updates);
    }
  }

  // ---------------------------------------------------------------------------
  // What Read and WriteTo answer over a reliable connection

  function Plains(wire: seq<Frame>): seq<Bytes> {
    seq(|wire|, i requires 0 <= i < |wire| => if wire[i].Frame? && wire[i].cipher.Sealed? then wire[i].cipher.plain else [])
  }

  /** The pieces still to be delivered: the rest of the held record, then record after record. */
  function Pieces(held: Bytes, chunks: seq<Bytes>): seq<Bytes> {
    if held == [] then chunks else [held] + chunks
  }

  function Offers(l: Link): seq<Bytes> { Pieces(l.recv.held, Plains(l.wire)) }

  /** The destination takes every piece whole and without an error. */
  predicate TakesAll(offers: seq<Bytes>, replies: seq<(int, bool)>) {
    |offers| <= |replies| && forall k | 0 <= k < |offers| :: replies[k] == (|offers[k]|, false)
  }

  lemma TakesFirst(offer: Bytes, rest: seq<Bytes>, replies: seq<(int, bool)>)
    ensures TakesAll([offer] + rest, replies)
      <==> replies != [] && replies[0] == (|offer|, false) && TakesAll(rest, replies[1..])
  {
    var offers := [offer] + rest;
    if replies != [] && replies[0] == (|offer|, false) && TakesAll(rest, replies[1..]) {
      forall k | 0 <= k < |offers| ensures replies[k] == (|offers[k]|, false) {
        if k > 0 { assert replies[1..][k - 1] == (|rest[k - 1]|, false); }
      }
    }
    if TakesAll(offers, replies) {
      forall k | 0 <= k < |rest| ensures replies[1..][k] == (|rest[k]|, false) {
        assert replies[k + 1] == (|offers[k + 1]|, false);
      }
    }
  }

  /** A copy succeeds exactly with such a destination, and then hands out everything. */
  lemma {:induction false} CopyIff(
    cfg: Config, l: Link, replies: seq<(int, bool)>, from: Sender, chunks: seq<Bytes>, limit: nat)
    requires Flight(cfg, l, from, chunks, limit)
    ensures !WriteOut(cfg.base, l.recv, l.wire, replies).failed <==> TakesAll(Pieces(l.recv.held, chunks), replies)
    decreases |chunks|, |l.recv.held|
  {
    var held := l.recv.held;
    if held == [] && chunks != [] {
      HoldKeepsFlight(cfg, l, from, chunks, limit);
      var mid := l.(recv := Advance(l.recv, l.wire[0]).(held := chunks[0]), wire := l.wire[1..]);
      CopyIff(cfg, mid, replies, AfterRecord(cfg, from, chunks[0]), chunks[1..], limit);
      assert [chunks[0]] + chunks[1..] == chunks;
    } else if held != [] {
      CopyHeld(cfg, l, replies, from, chunks, limit);
      TakesFirst(held, chunks, replies);
      if replies != [] && replies[0] == (|held|, false) {
        var mid := l.(recv := l.recv.(held := []), delivered := l.delivered + held);
        DrainKeepsFlight(cfg, l, |held|, from, chunks, limit);
        assert held[|held|..] == [] && held[..|held|] == held;
        CopyIff(cfg, mid, replies[1..], from, chunks, limit);
      }
    }
  }

  /** The write of the held record decides, or hands over to the next one. */
  lemma CopyHeld(cfg: Config, l: Link, replies: seq<(int, bool)>, from: Sender, chunks: seq<Bytes>, limit: nat)
    requires l.recv.held != []
    ensures var o := WriteOut(cfg.base, l.recv, l.wire, replies);
      if replies != [] && replies[0] == (|l.recv.held|, false)
      then o.failed == WriteOut(cfg.base, l.recv.(held := []), l.wire, replies[1..]).failed
      else o.failed
  {
    var held := l.recv.held;
    assert held[|held|..] == [];
  }

  lemma {:induction false} PlainsOf(cfg: Config, s: Sender, chunks: seq<Bytes>)
    ensures Plains(SendAll(cfg, s, chunks)) == chunks
    decreases |chunks|
  {
    if chunks != [] {
      var sent := SendAll(cfg, s, chunks);
      PlainsOf(cfg, AfterRecord(cfg, s, chunks[0]), chunks[1..]);
      assert sent[0] == Seal(cfg, s, chunks[0]) && sent[1..] == SendAll(cfg, AfterRecord(cfg, s, chunks[0]), chunks[1..]);
      assert Plains(sent) == [chunks[0]] + Plains(sent[1..]);
    }
  }

  /**
   WriteTo over a reliable connection: it returns no error if and only if the
   destination took every piece that was offered whole and without an error, and
   then everything written has been delivered; at the clean end that is so.
   */
  lemma CopySucceedsIff(cfg: Config, s: Sender, ops: seq<Op>, replies: seq<(int, bool)>)
    requires s.updates == 0 && s.epoch + Exec(cfg, s, ops).send.updates < U32
    ensures var l := Exec(cfg, s, ops);
      && (!WriteOut(cfg.base, l.recv, l.wire, replies).failed <==> TakesAll(Offers(l), replies))
      && (TakesAll(Offers(l), replies) ==>
            var l' := Apply(cfg, l, Copy(replies)); l'.delivered == l'.written == l.written)
      && (l.delivered == l.written <==> Offers(l) == [])
  {
    var l := Exec(cfg, s, ops);
    var from, chunks := FlightHolds(cfg, s, ops, l.send.updates);
    PlainsOf(cfg, from, chunks);
    CopyIff(cfg, l, replies, from, chunks, l.send.updates);
    var _, _ := CopyKeepsFlight(cfg, l, replies, from, chunks, l.send.updates);
    OffersAreRest(l, chunks);
  }

  lemma OffersAreRest(l: Link, chunks: seq<Bytes>)
    requires NonEmpty(chunks) && l.written == l.delivered + l.recv.held + Flatten(chunks)
    ensures l.delivered == l.written <==> Pieces(l.recv.held, chunks) == []
  {
    if chunks != [] { assert chunks[0] != [] && Flatten(chunks) == chunks[0] + Flatten(chunks[1..]); }
  }

  /** Whatever is on the wire: Read fails exactly at the end and on a frame that is refused, hands out nothing then, and keeps its state. */
  lemma ReadFailsIff(base: nat, r: Receiver, wire: seq<Frame>, size: nat)
    ensures var o := ReadSome(base, r, wire, size);
      && (o.failed <==> size > 0 && r.held == [] && (wire == [] || Accepted(base, r, wire[..1]) == []))
      && (o.failed ==> o.data == [] && o.recv == r)
  {
    if wire != [] {
      var first := wire[..1];
      assert first[0] == wire[0] && first[1..] == [];
      assert Accepted(base, r, []) == [];
    }
  }

  /** Whatever is on the wire: WriteTo without an error has met no frame that is refused, and leaves none and nothing held. */
  lemma {:induction false} CopyMeetsNoRefusal(base: nat, r: Receiver, wire: seq<Frame>, replies: seq<(int, bool)>)
    requires !WriteOut(base, r, wire, replies).failed
    ensures Accepted(base, r, wire) == wire
    ensures var o := WriteOut(base, r, wire, replies); o.wire == [] && o.recv.held == []
    decreases |wire|, |r.held|
  {
    if r.held != [] {
      CopyMeetsNoRefusal(base, r.(held := []), wire, replies[1..]);
      HeldIsIrrelevant(base, r, [], wire);
    } else if wire != [] {
      var next := Advance(r, wire[0]);
      var plain := Authenticate(base, r, wire[0]).value;
      CopyMeetsNoRefusal(base, next.(held := plain), wire[1..], replies);
      HeldIsIrrelevant(base, next, plain, wire[1..]);
      assert wire == [wire[0]] + wire[1..];
    }
  }

  lemma {:induction false} HeldIsIrrelevant(base: nat, r: Receiver, held: Bytes, wire: seq<Frame>)
    ensures Accepted(base, r.(held := held), wire) == Accepted(base, r, wire)
    decreases |wire|
  {
    if wire != [] {
      HeldIsIrrelevant(base, r, held, wire[1..]);
      if Authenticate(base, r, wire[0]).Some? { HeldIsIrrelevant(base, Advance(r, wire[0]), held, wire[1..]); }
    }
  }

  /**
   Read over a reliable connection: the front of the next piece, as much as fits
   the buffer, and an error if and only if everything has been delivered.
   */
  lemma ReadAnswers(cfg: Config, s: Sender, ops: seq<Op>, size: nat)
    requires s.updates == 0 && s.epoch + Exec(cfg, s, ops).send.updates < U32 && size > 0
    ensures var l := Exec(cfg, s, ops);
      var o := ReadSome(cfg.base, l.recv, l.wire, size);
      && (o.failed <==> l.delivered == l.written)
      && (!o.failed ==> Offers(l) != [] && o.data == Offers(l)[0][..Min(size, |Offers(l)[0]|)] != [])
  {
    var l := Exec(cfg, s, ops);
    var from, chunks := FlightHolds(cfg, s, ops, l.send.updates);
    PlainsOf(cfg, from, chunks);
    OffersAreRest(l, chunks);
    if l.recv.held == [] && chunks != [] { TakeFirst(cfg, l, from, chunks, l.send.updates); }
  }

  // ---------------------------------------------------------------------------
  // Rotation arithmetic

  ghost predicate FitsRecords(chunks: seq<Bytes>) {
    forall i | 0 <= i < |chunks| :: |chunks[i]| <= MAX_PLAIN
  }

  lemma {:induction false} QuotientKept(cfg: Config, s: Sender, chunks: seq<Bytes>)
    requires cfg.rotateAfter >= MAX_PLAIN && FitsRecords(chunks)
    requires cfg.rotateAfter * s.updates <= s.bytes < cfg.rotateAfter * (s.updates + 1)
    ensures var e := After(cfg, s, chunks); cfg.rotateAfter * e.updates <= e.bytes < cfg.rotateAfter * (e.updates + 1)
    decreases |chunks|
  {
    if chunks != [] {
      var s1 := AfterRecord(cfg, s, chunks[0]);
      var q, u := cfg.rotateAfter, s.updates;
      assert q * (u + 2) == q * (u + 1) + q && q * (u + 1) == q * u + q;
      assert |chunks[0]| <= MAX_PLAIN;
      QuotientKept(cfg, s1, chunks[1..]);
    }
  }

  lemma {:induction false} RotationsAtMostRecords(cfg: Config, s: Sender, chunks: seq<Bytes>)
    ensures After(cfg, s, chunks).updates <= s.updates + |chunks|
    ensures cfg.rotateAfter > 0 ==> After(cfg, s, chunks).bytes == s.bytes + |Flatten(chunks)|
    decreases |chunks|
  {
    if chunks != [] {
      RotationsAtMostRecords(cfg, AfterRecord(cfg, s, chunks[0]), chunks[1..]);
    }
  }

  lemma {:induction false} FullRecordsSize(n: nat, full: Bytes)
    ensures |Flatten(seq(n, _ => full))| == n * |full|
  {
    if n > 0 {
      assert seq(n, _ => full)[1..] == seq(n - 1, _ => full);
      FullRecordsSize(n - 1, full);
    }
  }

  /** Without a threshold no record starts a new epoch. */
  lemma {:induction false} RotationOff(cfg: Config, s: Sender, chunks: seq<Bytes>)
    requires cfg.rotateAfter <= 0
    ensures var e := After(cfg, s, chunks); e.epoch == s.epoch && e.updates == s.updates && e.bytes == s.bytes
    decreases |chunks|
  {
    if chunks != [] { RotationOff(cfg, AfterRecord(cfg, s, chunks[0]), chunks[1..]); }
  }

  /** The number of rotations is bytes / threshold after every record, if and only if a threshold is at least one full record. */
  lemma RotationCountExact(cfg: Config, s: Sender)
    requires cfg.rotateAfter > 0 && s.bytes == 0 && s.updates == 0
    ensures (forall chunks: seq<Bytes> | FitsRecords(chunks) ::
               After(cfg, s, chunks).updates == After(cfg, s, chunks).bytes / cfg.rotateAfter)
            <==> cfg.rotateAfter >= MAX_PLAIN
  {
    var q := cfg.rotateAfter;
    if q >= MAX_PLAIN {
      forall chunks: seq<Bytes> | FitsRecords(chunks)
        ensures After(cfg, s, chunks).updates == After(cfg, s, chunks).bytes / q
      {
        QuotientKept(cfg, s, chunks);
        Quotient(q, After(cfg, s, chunks).updates, After(cfg, s, chunks).bytes);
      }
    } else {
      var full: Bytes := seq(MAX_PLAIN, _ => 0);
      var chunks := seq(q, _ => full);
      FullRecordsSize(q, full);
      RotationsAtMostRecords(cfg, s, chunks);
      assert After(cfg, s, chunks).bytes == q * MAX_PLAIN;
      assert q * MAX_PLAIN / q == MAX_PLAIN by { Quotient(q, MAX_PLAIN, q * MAX_PLAIN); }
      assert FitsRecords(chunks);
    }
  }

  lemma Quotient(q: nat, u: nat, x: nat)
    requires q > 0 && q * u <= x < q * (u + 1)
    ensures x / q == u
  {
    var v := x / q;
    assert x == q * v + x % q;
    if v < u {
      Scale(q, v + 1, u);
      assert false;
    } else if u < v {
      Scale(q, u + 1, v);
      assert false;
    }
  }

  lemma Scale(q: nat, a: nat, b: nat)
    requires a <= b
    ensures q * a <= q * b
  {
  }
}
