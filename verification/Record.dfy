/**
 RecordConn: AEAD records whose (epoch, sequence) header is also the nonce,
 with key rotation driven by plaintext bytes, strict receive order, gathered
 writes, and partial reads from a held record. The AEAD is ideal: Open succeeds
 exactly on what Seal produced under the same key and header.
 */
module Record {
  import opened Common

  const MAX_BODY := 65535
  const HEADER_SIZE := 12
  const OVERHEAD := 16
  const MAX_PLAIN := MAX_BODY - HEADER_SIZE - OVERHEAD
  const MAX_JUMP := 8
  const U32 := 0x1_0000_0000
  const U64 := 0x1_0000_0000_0000_0000

  type u64 = x: int | 0 <= x < U64
  type u32 = x: int | 0 <= x < U32

  // ---------------------------------------------------------------------------
  // Ideal AEAD

  /** The key of one direction in one epoch, derived from that direction's base key. */
  datatype Key = Key(base: nat, epoch: u32)

  datatype Cipher = Sealed(key: Key, epoch: u32, seqNo: u64, plain: Bytes) | Forged(length: nat)

  /** A record as it is on the wire, from the peer or from anybody else. */
  datatype Frame = Short | Frame(epoch: u32, seqNo: u64, cipher: Cipher)

  function Open(key: Key, epoch: u32, seqNo: u64, c: Cipher): Option<Bytes> {
    if c.Sealed? && c.key == key && c.epoch == epoch && c.seqNo == seqNo then Some(c.plain) else None
  }

  /** The two-byte length that precedes a genuine frame. */
  function BodyLength(plain: Bytes): nat {
    HEADER_SIZE + |plain| + OVERHEAD
  }

  // ---------------------------------------------------------------------------
  // Sending

  /** `rotateAfter` is KeyUpdateAfterBytes; `draw(k)` is the random sequence start chosen at rotation number k. */
  datatype Config = Config(base: nat, rotateAfter: int, draw: nat -> u64)

  datatype Sender = Sender(epoch: u32, seqNo: u64, bytes: nat, updates: nat)

  /** maybeBumpSendEpochLocked. */
  function Bump(cfg: Config, s: Sender, added: nat): Sender {
    if cfg.rotateAfter <= 0 then s
    else
      var bytes := s.bytes + added;
      if bytes < cfg.rotateAfter * (s.updates + 1) then s.(bytes := bytes)
      else Sender((s.epoch + 1) % U32, cfg.draw(s.updates), bytes, s.updates + 1)
  }

  function Seal(cfg: Config, s: Sender, plain: Bytes): Frame {
    Frame(s.epoch, s.seqNo, Sealed(Key(cfg.base, s.epoch), s.epoch, s.seqNo, plain))
  }

  function AfterRecord(cfg: Config, s: Sender, plain: Bytes): Sender {
    Bump(cfg, s.(seqNo := (s.seqNo + 1) % U64), |plain|)
  }

  /** The frames and the final state of a sender that seals the given chunks one after another. */
  function SendAll(cfg: Config, s: Sender, chunks: seq<Bytes>): (frames: seq<Frame>)
    ensures |frames| == |chunks| && forall i | 0 <= i < |frames| :: frames[i].Frame?
    decreases |chunks|
  {
    if chunks == [] then [] else [Seal(cfg, s, chunks[0])] + SendAll(cfg, AfterRecord(cfg, s, chunks[0]), chunks[1..])
  }

  function After(cfg: Config, s: Sender, chunks: seq<Bytes>): Sender
    decreases |chunks|
  {
    if chunks == [] then s else After(cfg, AfterRecord(cfg, s, chunks[0]), chunks[1..])
  }

  /** How a plaintext is cut into records: full ones, then the rest. */
  function Chunks(data: Bytes): (chunks: seq<Bytes>)
    ensures Flatten(chunks) == data
    ensures forall i | 0 <= i < |chunks| :: 0 < |chunks[i]| <= MAX_PLAIN && BodyLength(chunks[i]) <= MAX_BODY
  {
    if data == [] then []
    else
      var n := Min(|data|, MAX_PLAIN);
      assert data[..n] + data[n..] == data;
      [data[..n]] + Chunks(data[n..])
  }

  lemma {:induction false} SendAllConcat(cfg: Config, s: Sender, a: seq<Bytes>, b: seq<Bytes>)
    ensures SendAll(cfg, s, a + b) == SendAll(cfg, s, a) + SendAll(cfg, After(cfg, s, a), b)
    ensures After(cfg, s, a + b) == After(cfg, After(cfg, s, a), b)
    decreases |a|
  {
    if a == [] {
      assert a + b == b;
    } else {
      assert (a + b)[1..] == a[1..] + b;
      SendAllConcat(cfg, AfterRecord(cfg, s, a[0]), a[1..], b);
    }
  }

  // ---------------------------------------------------------------------------
  // Receiving

  datatype Receiver = Receiver(initialized: bool, epoch: u32, seqNo: u64, held: Bytes)

  const FRESH := Receiver(false, 0, 0, [])

  /** The ordering checks of readLocked, before decryption. */
  predicate InOrder(r: Receiver, epoch: u32, seqNo: u64) {
    r.initialized ==>
      && r.epoch <= epoch <= r.epoch + MAX_JUMP
      && (epoch == r.epoch ==> seqNo == r.seqNo)
  }

  /** The plaintext of a frame the receiver takes, nothing for one it rejects. */
  function Authenticate(base: nat, r: Receiver, f: Frame): Option<Bytes> {
    if f.Short? || !InOrder(r, f.epoch, f.seqNo) then None
    else Open(Key(base, f.epoch), f.epoch, f.seqNo, f.cipher)
  }

  function Advance(r: Receiver, f: Frame): Receiver
    requires f.Frame?
  {
    r.(initialized := true, epoch := f.epoch, seqNo := (f.seqNo + 1) % U64)
  }

  /** The frames accepted out of any incoming sequence, and the state afterwards; a rejected frame changes nothing. */
  function Accepted(base: nat, r: Receiver, frames: seq<Frame>): (out: seq<Frame>)
    ensures forall f <- out :: f.Frame? && f in frames
    decreases |frames|
  {
    if frames == [] then []
    else if Authenticate(base, r, frames[0]).Some? then
      [frames[0]] + Accepted(base, Advance(r, frames[0]), frames[1..])
    else Accepted(base, r, frames[1..])
  }

  /** Result of Read or WriteTo: bytes handed out, receiver and wire afterwards, and whether it failed. */
  datatype Output = Output(data: Bytes, recv: Receiver, wire: seq<Frame>, failed: bool)

  /** Read into a buffer of `size` bytes. */
  function ReadSome(base: nat, r: Receiver, wire: seq<Frame>, size: nat): Output {
    if size == 0 then Output([], r, wire, false)
    else if r.held != [] then
      var n := Min(size, |r.held|);
      Output(r.held[..n], r.(held := r.held[n..]), wire, false)
    else if wire == [] then Output([], r, wire, true)
    else
      match Authenticate(base, r, wire[0])
      case None => Output([], r, wire[1..], true)
      case Some(plain) =>
        var n := Min(size, |plain|);
        Output(plain[..n], Advance(r, wire[0]).(held := plain[n..]), wire[1..], false)
  }

  /** WriteTo: `replies` is what the destination answers, call by call; past its end every call fails. */
  function WriteOut(base: nat, r: Receiver, wire: seq<Frame>, replies: seq<(int, bool)>): Output
    decreases |wire|, |r.held|
  {
    if r.held == [] then
      if wire == [] then Output([], r, wire, false)
      else
        match Authenticate(base, r, wire[0])
        case None => Output([], r, wire[1..], true)
        case Some(plain) => WriteOut(base, Advance(r, wire[0]).(held := plain), wire[1..], replies)
    else
      var (n, err) := if replies == [] then (0, true) else replies[0];
      var taken := if n < 0 || n > |r.held| then 0 else n;
      var r' := r.(held := r.held[taken..]);
      if err || taken < |r.held| then Output(r.held[..taken], r', wire, true)
      else
        var rest := WriteOut(base, r', wire, if replies == [] then [] else replies[1..]);
        rest.(data := r.held + rest.data)
  }

  /** What has been written and what is still to come make up the goal. */
  predicate Toward(written: Bytes, rest: Output, goal: Output) {
    rest.(data := written + rest.data) == goal
  }

  /** What one destination write contributes. */
  lemma DeliverStep(base: nat, r: Receiver, wire: seq<Frame>, replies: seq<(int, bool)>, written: Bytes, goal: Output)
    requires r.held != [] && Toward(written, WriteOut(base, r, wire, replies), goal)
    ensures var (n, err) := if replies == [] then (0, true) else replies[0];
      var taken := if n < 0 || n > |r.held| then 0 else n;
      var r' := r.(held := r.held[taken..]);
      if n < 0 || err || taken < |r.held| then Toward(written + r.held[..taken], Output([], r', wire, true), goal)
      else Toward(written + r.held[..taken], WriteOut(base, r', wire, if replies == [] then [] else replies[1..]), goal)
  {
    var (n, err) := if replies == [] then (0, true) else replies[0];
    var taken := if n < 0 || n > |r.held| then 0 else n;
    if !(err || taken < |r.held|) {
      assert r.held[..taken] == r.held;
      ConcatAssoc(written, r.held, WriteOut(base, r.(held := r.held[taken..]), wire, if replies == [] then [] else replies[1..]).data);
    }
  }

  // ---------------------------------------------------------------------------
  // The connection object

  /** Proof state of one WriteBuffers call: `done` of the chunks have gone out behind `before`. */
  datatype Job = Job(cfg: Config, start: Sender, chunks: seq<Bytes>, before: seq<Frame>, done: nat) {
    ghost function AllOut(): seq<Frame> { before + SendAll(cfg, start, chunks) }

    ghost function Goal(): Sender { After(cfg, start, chunks) }

    ghost predicate Progress(todo: seq<Bytes>, out: seq<Frame>, total: nat) {
      && done <= |chunks| && todo == chunks[done..] && total == |Flatten(chunks[..done])|
      && out == before + SendAll(cfg, start, chunks)[..done]
    }

    lemma Step(todo: seq<Bytes>, prior: seq<Frame>, total: nat, out: seq<Frame>, rest: seq<Frame>)
      requires Progress(todo, prior, total) && todo != []
      requires |out| == |prior| + 1 && out + rest == AllOut()
      ensures this.(done := done + 1).Progress(todo[1..], out, total + |todo[0]|)
    {
      assert chunks[..done + 1] == chunks[..done] + [chunks[done]];
      FlattenSnoc(chunks[..done], chunks[done]);
      SplitPrefix(out, rest, before, SendAll(cfg, start, chunks), done + 1);
    }
  }

  class RecordConn {
    const cfg: Config
    const recvBase: nat

    var sendEpoch: u32
    var sendSeq: u64
    var sendBytes: nat
    var sendEpochUpdates: nat

    var recvEpoch: u32
    var recvSeq: u64
    var recvInitialized: bool
    var readPlain: Bytes
    var readOff: nat

    var outgoing: seq<Frame>   // what the underlying connection took
    var writable: nat          // how many more frames it will take
    var incoming: seq<Frame>   // what it still has to deliver

    ghost predicate Valid()
      reads this
    {
      readOff <= |readPlain|
    }

    ghost function SendState(): Sender
      reads this
    {
      Sender(sendEpoch, sendSeq, sendBytes, sendEpochUpdates)
    }

    ghost function RecvState(): Receiver
      requires Valid()
      reads this
    {
      Receiver(recvInitialized, recvEpoch, recvSeq, readPlain[readOff..])
    }

    constructor (cfg: Config, recvBase: nat, epoch: u32, seqNo: u64, writable: nat, incoming: seq<Frame>)
      ensures Valid() && this.cfg == cfg && this.recvBase == recvBase
      ensures SendState() == Sender(epoch, seqNo, 0, 0) && RecvState() == FRESH
      ensures outgoing == [] && this.writable == writable && this.incoming == incoming
    {
      this.cfg, this.recvBase := cfg, recvBase;
      sendEpoch, sendSeq, sendBytes, sendEpochUpdates := epoch, seqNo, 0, 0;
      recvEpoch, recvSeq, recvInitialized, readPlain, readOff := 0, 0, false, [], 0;
      outgoing, this.writable, this.incoming := [], writable, incoming;
    }

    method MaybeBumpSendEpoch(addedPlain: nat)
      modifies this`sendEpoch, this`sendSeq, this`sendBytes, this`sendEpochUpdates
      ensures SendState() == Bump(cfg, old(SendState()), addedPlain)
    {
      if cfg.rotateAfter <= 0 { return; }
      sendBytes := sendBytes + addedPlain;
      var threshold := cfg.rotateAfter * (sendEpochUpdates + 1);
      if sendBytes < threshold { return; }
      sendEpoch := (sendEpoch + 1) % U32;
      sendSeq := cfg.draw(sendEpochUpdates);
      sendEpochUpdates := sendEpochUpdates + 1;
    }

    /** The size of the next record: as much as all the remaining buffers give, up to one record. */
    method GatherSize(buffers: seq<Bytes>, offset: nat) returns (n: nat)
      requires buffers != [] && offset <= |buffers[0]|
      ensures n == Min(|Flatten(buffers)| - offset, MAX_PLAIN)
    {
      n := Min(|buffers[0]| - offset, MAX_PLAIN);
      var i := 1;
      assert buffers[..1] == [buffers[0]] && Flatten(buffers[..1]) == buffers[0] + Flatten<byte>([]);
      while n < MAX_PLAIN && i < |buffers|
        invariant 1 <= i <= |buffers|
        invariant |Flatten(buffers[..i])| >= offset
        invariant n == Min(|Flatten(buffers[..i])| - offset, MAX_PLAIN)
      {
        assert buffers[..i + 1] == buffers[..i] + [buffers[i]];
        FlattenSnoc(buffers[..i], buffers[i]);
        n := n + Min(|buffers[i]|, MAX_PLAIN - n);
        i := i + 1;
      }
      FlattenSplit(buffers, i);
      assert i == |buffers| ==> Flatten(buffers[i..]) == [];
    }

    /** Copy the next n bytes across slice boundaries; what is left is the same stream without them. */
    method Gather(buffers: seq<Bytes>, offset: nat, n: nat) returns (chunk: Bytes, rest: seq<Bytes>, off: nat)
      requires buffers != [] && offset <= |buffers[0]| && offset + n <= |Flatten(buffers)|
      ensures chunk == Flatten(buffers)[offset..][..n]
      ensures off <= |Flatten(rest)| && (rest == [] ==> off == 0) && (rest != [] ==> off <= |rest[0]|)
      ensures Flatten(rest)[off..] == Flatten(buffers)[offset..][n..]
    {
      chunk, rest, off := [], buffers, offset;
      ghost var stream := Flatten(buffers)[offset..];
      assert off <= |rest[0]| <= |Flatten(rest)|;
      while |chunk| < n
        invariant |chunk| <= n && chunk == stream[..|chunk|]
        invariant (rest == [] ==> off == 0) && (rest != [] ==> off <= |rest[0]|)
        invariant off <= |Flatten(rest)| && Flatten(rest)[off..] == stream[|chunk|..]
        decreases n - |chunk|, |rest|
      {
        assert rest != [];
        var used := Min(n - |chunk|, |rest[0]| - off);
        ghost var before := |chunk|;
        assert Flatten(rest) == rest[0] + Flatten(rest[1..]);
        assert rest[0][off..off + used] == Flatten(rest)[off..][..used];
        chunk := chunk + rest[0][off..off + used];
        assert chunk == stream[..before + used];
        off := off + used;
        assert Flatten(rest)[off..] == stream[|chunk|..];
        if off == |rest[0]| {
          assert Flatten(rest)[off..] == Flatten(rest[1..]) == Flatten(rest[1..])[0..];
          rest, off := rest[1..], 0;
        }
      }
    }

    /** One record's plaintext: straight from the caller's slice when it holds enough, gathered otherwise. */
    method NextRecord(buffers: seq<Bytes>, offset: nat) returns (chunk: Bytes, rest: seq<Bytes>, off: nat)
      requires buffers != [] && offset < |buffers[0]| <= |Flatten(buffers)|
      ensures off <= |Flatten(rest)| && (rest == [] ==> off == 0) && (rest != [] ==> off <= |rest[0]|)
      ensures var chunks := Chunks(Flatten(buffers)[offset..]);
        chunks != [] && chunk == chunks[0] && Chunks(Flatten(rest)[off..]) == chunks[1..]
      ensures |Flatten(rest)| - off < |Flatten(buffers)| - offset
    {
      var n := GatherSize(buffers, offset);
      ghost var stream := Flatten(buffers)[offset..];
      assert Flatten(buffers) == buffers[0] + Flatten(buffers[1..]);
      if |buffers[0]| - offset >= n {
        chunk, rest, off := buffers[0][offset..offset + n], buffers, offset + n;
        assert chunk == stream[..n];
        assert Flatten(rest)[off..] == stream[n..];
      } else {
        chunk, rest, off := Gather(buffers, offset, n);
      }
      assert |Flatten(rest)[off..]| == |stream| - n;
    }

    /**
     Seal one record and hand it to the connection; the sequence number is spent
     even when that fails. `todo` is what this and the later records carry.
     */
    method SendRecord(chunk: Bytes, ghost todo: seq<Bytes>) returns (ok: bool)
      requires todo != [] && chunk == todo[0]
      modifies this`sendEpoch, this`sendSeq, this`sendBytes, this`sendEpochUpdates, this`outgoing, this`writable
      ensures ok <==> old(writable) > 0
      ensures ok ==>
        && writable == old(writable) - 1 && |outgoing| == |old(outgoing)| + 1
        && outgoing + SendAll(cfg, SendState(), todo[1..]) == old(outgoing) + SendAll(cfg, old(SendState()), todo)
        && After(cfg, SendState(), todo[1..]) == After(cfg, old(SendState()), todo)
      ensures !ok ==> writable == 0 && outgoing == old(outgoing)
    {
      var epoch, seqNo := sendEpoch, sendSeq;
      sendSeq := (sendSeq + 1) % U64;
      if writable == 0 { return false; }
      writable := writable - 1;
      outgoing := outgoing + [Frame(epoch, seqNo, Sealed(Key(cfg.base, epoch), epoch, seqNo, chunk))];
      MaybeBumpSendEpoch(|chunk|);
      return true;
    }

    /** The frames are those of one plaintext, the concatenation; `total` counts the bytes of fully written frames. */
    method WriteBuffers(buffers: seq<Bytes>) returns (total: nat, failed: bool)
      modifies this`sendEpoch, this`sendSeq, this`sendBytes, this`sendEpochUpdates, this`outgoing, this`writable
      ensures var chunks := Chunks(Flatten(buffers));
        && failed == (old(writable) < |chunks|)
        && outgoing == old(outgoing) + SendAll(cfg, old(SendState()), chunks)[..Min(old(writable), |chunks|)]
        && total == |Flatten(chunks[..Min(old(writable), |chunks|)])|
        && (!failed ==> SendState() == After(cfg, old(SendState()), chunks))
    {
      var bufs := buffers;
      var offset: nat := 0;
      total, failed := 0, false;
      ghost var todo := Chunks(Flatten(buffers));
      ghost var job := Job(cfg, SendState(), todo, outgoing, 0);
      assert Flatten(buffers)[0..] == Flatten(buffers);
      while |bufs| > 0 && !failed
        invariant (bufs == [] ==> offset == 0) && (bufs != [] ==> offset <= |bufs[0]|) && offset <= |Flatten(bufs)|
        invariant failed ==> todo != [] && writable == 0
        invariant !failed ==> todo == Chunks(Flatten(bufs)[offset..]) && After(cfg, SendState(), todo) == job.Goal()
        invariant job == Job(cfg, old(SendState()), Chunks(Flatten(buffers)), old(outgoing), job.done)
        invariant job.done + writable == old(writable) && job.Progress(todo, outgoing, total)
        invariant !failed ==> outgoing + SendAll(cfg, SendState(), todo) == job.AllOut()
        decreases !failed, |Flatten(bufs)| - offset, |bufs|
      {
        assert Flatten(bufs) == bufs[0] + Flatten(bufs[1..]);
        if offset == |bufs[0]| {
          assert Flatten(bufs)[offset..] == Flatten(bufs[1..]) == Flatten(bufs[1..])[0..];
          bufs, offset := bufs[1..], 0;
        } else {
          var chunk;
          chunk, bufs, offset := NextRecord(bufs, offset);
          ghost var prior := outgoing;
          var ok := SendRecord(chunk, todo);
          if ok {
            job.Step(todo, prior, total, outgoing, SendAll(cfg, SendState(), todo[1..]));
            total := total + |chunk|;
            todo, job := todo[1..], job.(done := job.done + 1);
          } else {
            failed := true;
          }
        }
      }
      assert job.done == Min(old(writable), |job.chunks|);
    }

    /** readLocked with a buffer of `size` bytes; size 0 stands for the nil buffer of WriteTo. */
    method ReadLocked(size: nat) returns (out: Bytes, failed: bool)
      requires Valid()
      modifies this`recvEpoch, this`recvSeq, this`recvInitialized, this`readPlain, this`readOff, this`incoming
      ensures Valid()
      ensures size > 0 ==>
        Output(out, RecvState(), incoming, failed) == ReadSome(recvBase, old(RecvState()), old(incoming), size)
      ensures size == 0 && old(RecvState()).held == [] && old(incoming) != [] ==>
        match Authenticate(recvBase, old(RecvState()), old(incoming)[0])
        case None => failed && RecvState() == old(RecvState()) && incoming == old(incoming)[1..]
        case Some(plain) =>
          && !failed && incoming == old(incoming)[1..]
          && RecvState() == Advance(old(RecvState()), old(incoming)[0]).(held := plain)
      ensures size == 0 && old(RecvState()).held == [] && old(incoming) == [] ==>
        failed && RecvState() == old(RecvState()) && incoming == []
    {
      if readOff < |readPlain| {
        out := DrainPlain(size);
        return out, false;
      }
      if incoming == [] { return [], true; }
      var f := incoming[0];
      incoming := incoming[1..];
      var plain := TakeRecord(f);
      if plain.None? { return [], true; }
      if size >= |plain.value| {
        readPlain, readOff := [], 0;
        return plain.value, false;
      }
      readPlain, readOff := plain.value, 0;
      assert readPlain[0..] == readPlain;
      out := DrainPlain(size);
      failed := false;
    }

    /** The middle of readLocked: a record out of order or forged changes nothing. */
    method TakeRecord(f: Frame) returns (plain: Option<Bytes>)
      requires Valid()
      modifies this`recvEpoch, this`recvSeq, this`recvInitialized
      ensures Valid() && plain == Authenticate(recvBase, old(RecvState()), f)
      ensures RecvState() == if plain.Some? then Advance(old(RecvState()), f) else old(RecvState())
    {
      if f.Short? { return None; }
      if recvInitialized {
        if f.epoch < recvEpoch { return None; }
        if f.epoch == recvEpoch && f.seqNo != recvSeq { return None; }
        if f.epoch > recvEpoch && f.epoch - recvEpoch > MAX_JUMP { return None; }
      }
      plain := Open(Key(recvBase, f.epoch), f.epoch, f.seqNo, f.cipher);
      if plain.Some? {
        recvEpoch, recvSeq, recvInitialized := f.epoch, (f.seqNo + 1) % U64, true;
      }
    }

    method DrainPlain(size: nat) returns (out: Bytes)
      requires Valid()
      modifies this`readPlain, this`readOff
      ensures Valid()
      ensures |out| == Min(size, old(|readPlain| - readOff)) && out == old(readPlain[readOff..])[..|out|]
      ensures readPlain[readOff..] == old(readPlain[readOff..])[|out|..]
    {
      var n := Min(size, |readPlain| - readOff);
      out := readPlain[readOff..readOff + n];
      readOff := readOff + n;
      if readOff >= |readPlain| {
        readPlain, readOff := [], 0;
      }
    }

    /** record_copy.go's WriteTo: a short or failing destination write keeps the unwritten suffix. */
    method WriteTo(replies: seq<(int, bool)>) returns (out: Bytes, failed: bool)
      requires Valid()
      modifies this`recvEpoch, this`recvSeq, this`recvInitialized, this`readPlain, this`readOff, this`incoming
      ensures Valid()
      ensures Output(out, RecvState(), incoming, failed) == WriteOut(recvBase, old(RecvState()), old(incoming), replies)
    {
      out := [];
      var calls := replies;
      ghost var goal := WriteOut(recvBase, RecvState(), incoming, replies);
      while true
        invariant Valid()
        invariant Toward(out, WriteOut(recvBase, RecvState(), incoming, calls), goal)
        decreases |incoming|, |readPlain| - readOff
      {
        if readOff >= |readPlain| {
          var more, err := Refill(calls);
          if !more { return out, err; }
          continue;
        }
        ghost var r, before := RecvState(), calls;
        var reply := if calls == [] then (0, true) else calls[0];
        calls := if calls == [] then [] else calls[1..];
        var data, err := Deliver(reply);
        DeliverStep(recvBase, r, incoming, before, out, goal);
        out := out + data;
        if err { return out, true; }
      }
    }

    /** The next record, when nothing is held; none at the end of the wire or for a bad frame. */
    method Refill(ghost calls: seq<(int, bool)>) returns (more: bool, failed: bool)
      requires Valid() && readOff >= |readPlain|
      modifies this`recvEpoch, this`recvSeq, this`recvInitialized, this`readPlain, this`readOff, this`incoming
      ensures Valid()
      ensures WriteOut(recvBase, old(RecvState()), old(incoming), calls)
           == if more then WriteOut(recvBase, RecvState(), incoming, calls) else Output([], RecvState(), incoming, failed)
      ensures more ==> |incoming| < |old(incoming)|
    {
      if incoming == [] { return false, false; }
      var _, err := ReadLocked(0);
      more, failed := !err, err;
    }

    /** One destination write: a count out of range counts as 0, and a short one as a failure. */
    method Deliver(reply: (int, bool)) returns (data: Bytes, failed: bool)
      requires Valid() && readOff < |readPlain|
      modifies this`readPlain, this`readOff
      ensures Valid()
      ensures var held := old(RecvState()).held;
        var taken := if reply.0 < 0 || reply.0 > |held| then 0 else reply.0;
        && data == held[..taken] && RecvState() == old(RecvState()).(held := held[taken..])
        && failed == (reply.0 < 0 || reply.1 || taken < |held|)
    {
      var p := readPlain[readOff..];
      var (n, err) := reply;
      if n < 0 || n > |p| { n, err := 0, true; }
      if n < |p| { err := true; }
      readOff := readOff + n;
      data, failed := p[..n], err;
      assert readPlain[readOff..] == p[n..];
      if readOff >= |readPlain| {
        readPlain, readOff := [], 0;
      }
    }
  }
}
