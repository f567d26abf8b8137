/** Two multiplexer endpoints on one reliable FIFO connection, over every interleaving. */
module MuxTheorems {
  import opened Common
  import opened Mux

  // ---------------------------------------------------------------------------
  // What a frame sequence says about one stream id

  /** All bytes its data frames carry for the stream. */
  function DataOf(frames: seq<Frame>, id: nat): Bytes {
    if frames == [] then []
    else
      var f := frames[|frames| - 1];
      DataOf(frames[..|frames| - 1], id) + (if f.kind.DataFrame? && f.id == id then f.payload else [])
  }

  predicate Has(frames: seq<Frame>, kind: Kind, id: nat) {
    frames != [] &&
    var f := frames[|frames| - 1];
    (f.kind == kind && f.id == id) || Has(frames[..|frames| - 1], kind, id)
  }

  /** A close frame that is the sender's own half-close: no reset for the stream came before it. */
  predicate CleanClose(frames: seq<Frame>, id: nat) {
    frames != [] &&
    var f := frames[|frames| - 1];
    var before := frames[..|frames| - 1];
    CleanClose(before, id) || (f.kind.CloseFrame? && f.id == id && !Has(before, ResetFrame, id))
  }

  lemma Snoc(frames: seq<Frame>, f: Frame, id: nat)
    ensures DataOf(frames + [f], id) == DataOf(frames, id) + (if f.kind.DataFrame? && f.id == id then f.payload else [])
    ensures forall kind :: Has(frames + [f], kind, id) == ((f.kind == kind && f.id == id) || Has(frames, kind, id))
    ensures CleanClose(frames + [f], id) ==
            (CleanClose(frames, id) || (f.kind.CloseFrame? && f.id == id && !Has(frames, ResetFrame, id)))
  {
    assert (frames + [f])[..|frames|] == frames;
  }

  // ---------------------------------------------------------------------------
  // The system

  datatype System = System(client: Endpoint, server: Endpoint)

  datatype Action = AtClient(a: Local) | AtServer(a: Local) | Receive(byServer: bool) | ConnectionEof(byServer: bool)

  function Fresh(server: bool): Endpoint {
    Endpoint(server, true, map[], {}, 0, [], 0, [])
  }

  /** The endpoint takes the next frame its peer has sent. */
  function ReceiveNext(x: Endpoint, y: Endpoint): Endpoint {
    if y.alive && y.taken < |x.sent| then Demux(y, x.sent[y.taken]).(taken := y.taken + 1) else y
  }

  /** The connection ends cleanly only when the peer has closed it and everything it sent was taken. */
  function SeeEof(x: Endpoint, y: Endpoint): Endpoint {
    if !x.alive && y.taken == |x.sent| then Fail(y, EOF) else y
  }

  function Apply(m: System, a: Action): System {
    match a
    case AtClient(l) => m.(client := Act(m.client, l))
    case AtServer(l) => m.(server := Act(m.server, l))
    case Receive(byServer) =>
      if byServer then m.(server := ReceiveNext(m.client, m.server)) else m.(client := ReceiveNext(m.server, m.client))
    case ConnectionEof(byServer) =>
      if byServer then m.(server := SeeEof(m.client, m.server)) else m.(client := SeeEof(m.server, m.client))
  }

  function Exec(actions: seq<Action>): System {
    if actions == [] then System(Fresh(false), Fresh(true))
    else Apply(Exec(actions[..|actions| - 1]), actions[|actions| - 1])
  }

  // ---------------------------------------------------------------------------
  // Invariants of an endpoint as a sender

  /** No data after a clean close. */
  ghost predicate Frozen(sent: seq<Frame>, id: nat) {
    forall t | 0 <= t <= |sent| :: CleanClose(sent[..t], id) ==> DataOf(sent, id) == DataOf(sent[..t], id)
  }

  /** On the client's side nothing is said about a stream before its open frame. */
  ghost predicate OpenFirst(sent: seq<Frame>, id: nat) {
    forall t | 0 <= t <= |sent| ::
      DataOf(sent[..t], id) != [] || Has(sent[..t], ResetFrame, id) || CleanClose(sent[..t], id) ==> Has(sent[..t], OpenFrame, id)
  }

  /** No second open frame for an id. */
  ghost predicate OpensOnce(sent: seq<Frame>, id: nat) {
    forall t | 0 <= t < |sent| :: sent[t].kind.OpenFrame? && sent[t].id == id ==> !Has(sent[..t], OpenFrame, id)
  }

  /** The data frames of a stream are the bytes its Writes counted, those are a prefix of what Write was given, and nothing is missing but what a dead session cut off. */
  ghost predicate Faithful(st: Stream, data: Bytes, complete: bool) {
    data == st.counted && st.counted + st.writing <= st.wrote && (complete ==> st.counted + st.writing == st.wrote)
  }

  ghost predicate SenderData(x: Endpoint, id: nat) {
    id in x.streams ==> Faithful(x.streams[id], DataOf(x.sent, id), x.alive || CleanClose(x.sent, id))
  }

  ghost predicate SenderId(x: Endpoint, id: nat) {
    && SenderData(x, id)
    && Frozen(x.sent, id) && OpensOnce(x.sent, id)
    && (CleanClose(x.sent, id) ==> id in x.streams && x.streams[id].writeClosed && x.streams[id].writing == [])
    && (DataOf(x.sent, id) != [] || Has(x.sent, ResetFrame, id) || Has(x.sent, OpenFrame, id) ==> id in x.streams)
    && (id in x.streams && x.streams[id].writing != [] ==> !x.streams[id].writeClosed)
    && (id in x.registered ==> id in x.streams && !x.streams[id].closed)
    && (Has(x.sent, OpenFrame, id) ==> !x.server && id != 0)
    && (!x.server ==>
          && OpenFirst(x.sent, id)
          && (id in x.streams ==> 0 < id <= x.nextId)
          && (id in x.streams && (!x.streams[id].closed || x.streams[id].writing != []) ==> Has(x.sent, OpenFrame, id)))
  }

  ghost predicate OwedOk(x: Endpoint, rest: seq<Frame>) {
    rest == [] ||
    var id := rest[0].id;
    && id in x.streams && (!x.server ==> Has(x.sent, OpenFrame, id))
    && (|| rest == [Frame(ResetFrame, id, []), Frame(CloseFrame, id, [])]
        || (rest == [Frame(CloseFrame, id, [])] && (x.alive ==> Has(x.sent, ResetFrame, id))))
  }

  ghost predicate SenderInv(x: Endpoint) {
    && (forall id :: SenderId(x, id))
    && (forall k | 0 <= k < |x.owed| :: OwedOk(x, x.owed[k]))
    && (forall i | 0 <= i < |x.sent| :: |x.sent[i].payload| <= MAX_FRAME)
  }

  // ---------------------------------------------------------------------------
  // Invariants of an endpoint as a receiver

  ghost predicate ReceiverStream(x: Endpoint, y: Endpoint, id: nat, st: Stream, taken: seq<Frame>) {
    && st.got + st.unread <= DataOf(taken, id) && |st.unread| <= MAX_QUEUED
    && (!st.closed ==> st.err.None?) && (y.server ==> Has(taken, OpenFrame, id))
    && (!st.closed && !st.readClosed ==> st.got + st.unread == DataOf(taken, id))
    && (!st.closed && !st.readClosed && !st.remoteClosed ==> id in y.registered)
    && (id in y.registered ==> !Has(taken, ResetFrame, id))
    && (st.remoteClosed && !st.closed ==> CleanClose(taken, id))
    && (CleanClose(taken, id) && !st.closed && !st.readClosed ==> st.remoteClosed)
    && (st.closed && st.err == Some(EOF) ==>
          && !x.alive && !y.alive && taken == x.sent
          && (!st.readClosed ==> st.got + st.unread == DataOf(taken, id)))
  }

  ghost predicate ReceiverId(x: Endpoint, y: Endpoint, id: nat)
    requires y.taken <= |x.sent|
  {
    var taken := x.sent[..y.taken];
    if id in y.streams then ReceiverStream(x, y, id, y.streams[id], taken)
    else DataOf(taken, id) == [] && !Has(taken, ResetFrame, id) && !Has(taken, OpenFrame, id) && !CleanClose(taken, id)
  }

  ghost predicate ReceiverInv(x: Endpoint, y: Endpoint) {
    y.taken <= |x.sent| && forall id :: ReceiverId(x, y, id)
  }

  ghost predicate Inv(m: System) {
    && !m.client.server && m.server.server
    && SenderInv(m.client) && SenderInv(m.server)
    && ReceiverInv(m.client, m.server) && ReceiverInv(m.server, m.client)
    && m.server.streams.Keys <= m.client.streams.Keys
  }

  // ---------------------------------------------------------------------------
  // Preservation

  /** When a frame may be appended to what an endpoint sends. */
  ghost predicate MaySend(x: Endpoint, f: Frame) {
    && |f.payload| <= MAX_FRAME
    && (f.kind.OpenFrame? ==> !x.server && f.id != 0 && f.id in x.streams && !Has(x.sent, OpenFrame, f.id))
    && (f.kind.DataFrame? && f.payload != [] ==>
          !CleanClose(x.sent, f.id) && f.id in x.streams && (!x.server ==> Has(x.sent, OpenFrame, f.id)))
    && (f.kind.ResetFrame? ==> f.id in x.streams && (!x.server ==> Has(x.sent, OpenFrame, f.id)))
    && (f.kind.CloseFrame? && !Has(x.sent, ResetFrame, f.id) ==>
          f.id in x.streams && x.streams[f.id].writeClosed && x.streams[f.id].writing == [])
    && (f.kind.CloseFrame? && !x.server ==> Has(x.sent, OpenFrame, f.id))
  }

  /** Everything SenderId says except about the bytes, and that a live client stream has been opened. */
  ghost predicate SenderIdButOpen(x: Endpoint, id: nat) {
    && Frozen(x.sent, id) && OpensOnce(x.sent, id)
    && (CleanClose(x.sent, id) ==> id in x.streams && x.streams[id].writeClosed && x.streams[id].writing == [])
    && (DataOf(x.sent, id) != [] || Has(x.sent, ResetFrame, id) || Has(x.sent, OpenFrame, id) ==> id in x.streams)
    && (id in x.streams && x.streams[id].writing != [] ==> !x.streams[id].writeClosed)
    && (id in x.registered ==> id in x.streams && !x.streams[id].closed)
    && (Has(x.sent, OpenFrame, id) ==> !x.server && id != 0)
    && (!x.server ==> OpenFirst(x.sent, id) && (id in x.streams ==> 0 < id <= x.nextId))
  }

  lemma SendKeepsFrozen(sent: seq<Frame>, f: Frame, id: nat)
    requires Frozen(sent, id)
    requires f.kind.DataFrame? && f.id == id && f.payload != [] ==> !CleanClose(sent, id)
    ensures Frozen(sent + [f], id)
  {
    var sent' := sent + [f];
    Snoc(sent, f, id);
    forall t | 0 <= t <= |sent'| && CleanClose(sent'[..t], id)
      ensures DataOf(sent', id) == DataOf(sent'[..t], id)
    {
      if t == |sent'| {
        assert sent'[..t] == sent';
      } else {
        assert sent'[..t] == sent[..t];
        CleanCloseGrows(sent, t, id);
      }
    }
  }

  lemma {:induction false} CleanCloseGrows(sent: seq<Frame>, t: nat, id: nat)
    requires t <= |sent| && CleanClose(sent[..t], id)
    ensures CleanClose(sent, id)
    decreases |sent|
  {
    if t == |sent| {
      assert sent[..t] == sent;
    } else {
      assert sent[..|sent| - 1][..t] == sent[..t];
      CleanCloseGrows(sent[..|sent| - 1], t, id);
    }
  }

  lemma SendKeepsOpensOnce(sent: seq<Frame>, f: Frame, id: nat)
    requires OpensOnce(sent, id)
    requires f.kind.OpenFrame? && f.id == id ==> !Has(sent, OpenFrame, id)
    ensures OpensOnce(sent + [f], id)
  {
    var sent' := sent + [f];
    forall t | 0 <= t < |sent'| && sent'[t].kind.OpenFrame? && sent'[t].id == id
      ensures !Has(sent'[..t], OpenFrame, id)
    {
      assert sent'[..t] == sent[..t];
      assert sent[..|sent|] == sent;
    }
  }

  lemma SendKeepsOpenFirst(sent: seq<Frame>, f: Frame, id: nat)
    requires OpenFirst(sent, id)
    requires f.id == id && ((f.kind.DataFrame? && f.payload != []) || f.kind.ResetFrame? || f.kind.CloseFrame?) ==>
      Has(sent, OpenFrame, id)
    ensures OpenFirst(sent + [f], id)
  {
    var sent' := sent + [f];
    Snoc(sent, f, id);
    assert sent[..|sent|] == sent;
    forall t | 0 <= t <= |sent'| && (DataOf(sent'[..t], id) != [] || Has(sent'[..t], ResetFrame, id) || CleanClose(sent'[..t], id))
      ensures Has(sent'[..t], OpenFrame, id)
    {
      if t == |sent'| {
        assert sent'[..t] == sent';
      } else {
        assert sent'[..t] == sent[..t];
      }
    }
  }

  lemma SendKeepsSender(x: Endpoint, f: Frame)
    requires MaySend(x, f)
    requires forall id :: SenderIdButOpen(x, id)
    requires forall id :: SenderData(x.(sent := x.sent + [f]), id)
    requires !x.server ==> forall id | id in x.streams ::
      (f.kind.OpenFrame? && f.id == id) || Has(x.sent, OpenFrame, id)
      || (x.streams[id].closed && x.streams[id].writing == [])
    requires forall k | 0 <= k < |x.owed| :: OwedOk(x, x.owed[k])
    requires forall i | 0 <= i < |x.sent| :: |x.sent[i].payload| <= MAX_FRAME
    ensures SenderInv(x.(sent := x.sent + [f]))
  {
    var x' := x.(sent := x.sent + [f]);
    forall id ensures SenderId(x', id) {
      assert SenderIdButOpen(x, id);
      Snoc(x.sent, f, id);
      SendKeepsFrozen(x.sent, f, id);
      SendKeepsOpensOnce(x.sent, f, id);
      if !x.server { SendKeepsOpenFirst(x.sent, f, id); }
    }
    forall k | 0 <= k < |x'.owed| ensures OwedOk(x', x'.owed[k]) {
      assert OwedOk(x, x.owed[k]);
      if x.owed[k] != [] { Snoc(x.sent, f, x.owed[k][0].id); }
    }
  }

  /** A frame without data changes nothing about the bytes of any stream. */
  lemma QuietFrame(x: Endpoint, f: Frame)
    requires x.alive && (f.kind.DataFrame? ==> f.payload == []) && forall id :: SenderData(x, id)
    ensures forall id :: SenderData(x.(sent := x.sent + [f]), id)
  {
    forall id ensures SenderData(x.(sent := x.sent + [f]), id) {
      assert SenderData(x, id);
      Snoc(x.sent, f, id);
    }
  }

  /** The chunk a Write sends is the chunk it counts. */
  lemma ChunkFrame(x: Endpoint, id: nat, n: nat)
    requires x.alive && id in x.streams && n <= |x.streams[id].writing| && forall j :: SenderData(x, j)
    ensures var st := x.streams[id];
      var mid := Put(x, id, st.(writing := st.writing[n..], counted := st.counted + st.writing[..n]));
      forall j :: SenderData(mid.(sent := x.sent + [Frame(DataFrame, id, st.writing[..n])]), j)
  {
    var st := x.streams[id];
    var f := Frame(DataFrame, id, st.writing[..n]);
    var mid := Put(x, id, st.(writing := st.writing[n..], counted := st.counted + st.writing[..n]));
    ConcatAssoc(st.counted, st.writing[..n], st.writing[n..]);
    assert st.writing == st.writing[..n] + st.writing[n..];
    forall j ensures SenderData(mid.(sent := x.sent + [f]), j) {
      assert SenderData(x, j);
      Snoc(x.sent, f, j);
    }
  }

  /** A receiver does not notice that its peer has sent more. */
  lemma PeerMayGrow(x: Endpoint, x': Endpoint, y: Endpoint)
    requires ReceiverInv(x, y)
    requires x.sent <= x'.sent && (!x.alive ==> !x'.alive && x'.sent == x.sent)
    ensures ReceiverInv(x', y)
  {
    assert x'.sent[..y.taken] == x.sent[..y.taken];
    forall id ensures ReceiverId(x', y, id) {
      assert ReceiverId(x, y, id);
    }
  }

  /** An action of the endpoint's own side, seen as sender. */
  lemma ActKeepsSender(x: Endpoint, a: Local)
    requires SenderInv(x)
    ensures SenderInv(Act(x, a))
  {
    forall id ensures SenderIdButOpen(x, id) { assert SenderId(x, id); }
    match a
    case OpenStream(_) => OpenKeepsSender(x, a);
    case BeginWrite(_, _) => FlagsKeepSender(x, a);
    case EmitChunk(_) => EmitKeepsSender(x, a);
    case Read(_, _) => FlagsKeepSender(x, a);
    case CloseStream(_) => CloseKeepsSender(x, a);
    case CloseWrite(_) => CloseKeepsSender(x, a);
    case CloseRead(_) => FlagsKeepSender(x, a);
    case SendOwed(k) => OwedKeepsSender(x, k);
    case Keepalive =>
      if x.alive {
        assert forall id | id in x.streams :: SenderId(x, id);
        forall id ensures SenderData(x, id) { assert SenderId(x, id); }
        QuietFrame(x, Frame(DataFrame, 0, []));
        SendKeepsSender(x, Frame(DataFrame, 0, []));
      }
    case FailWith(err) => FailKeepsSender(x, err);
  }

  lemma FailKeepsSender(x: Endpoint, err: Error)
    requires SenderInv(x)
    ensures SenderInv(Fail(x, err))
  {
    var x' := Fail(x, err);
    forall id ensures SenderId(x', id) { assert SenderId(x, id); }
    forall k | 0 <= k < |x'.owed| ensures OwedOk(x', x'.owed[k]) { assert OwedOk(x, x.owed[k]); }
  }

  lemma FlagsKeepSender(x: Endpoint, a: Local)
    requires SenderInv(x) && (a.BeginWrite? || a.Read? || a.CloseRead?)
    ensures SenderInv(Act(x, a))
  {
    var x' := Act(x, a);
    forall id ensures SenderId(x', id) {
      assert SenderId(x, id);
      if a.BeginWrite? { BeginKeepsId(x, a, id); } else if a.Read? { ReadKeepsId(x, a, id); } else { CloseReadKeepsId(x, a, id); }
    }
    forall k | 0 <= k < |x'.owed| ensures OwedOk(x', x'.owed[k]) { assert OwedOk(x, x.owed[k]); }
  }

  /** A Write starts only when no other is in progress, so its data continues what was counted. */
  lemma BeginKeepsId(x: Endpoint, a: Local, id: nat)
    requires SenderId(x, id) && a.BeginWrite?
    ensures SenderId(Act(x, a), id)
  {
    if id == a.id && Act(x, a) != x {
      var st := x.streams[id];
      assert st.counted + [] == st.counted;
    }
  }

  /** The sender invariant of one id looks at few fields. */
  lemma SameSenderId(x: Endpoint, x': Endpoint, id: nat)
    requires SenderId(x, id) && x'.sent == x.sent && x'.server == x.server && x'.nextId == x.nextId && x'.alive == x.alive
    requires id in x'.registered ==> id in x.registered
    requires id in x'.streams <==> id in x.streams
    requires id in x.streams ==> var st, st' := x.streams[id], x'.streams[id];
      && st'.closed == st.closed && st'.writeClosed == st.writeClosed && st'.writing == st.writing
      && st'.wrote == st.wrote && st'.counted == st.counted
    ensures SenderId(x', id)
  {
  }

  lemma ReadKeepsId(x: Endpoint, a: Local, id: nat)
    requires SenderId(x, id) && a.Read?
    ensures SenderId(Act(x, a), id)
  {
    SameSenderId(x, Act(x, a), id);
  }

  lemma CloseReadKeepsId(x: Endpoint, a: Local, id: nat)
    requires SenderId(x, id) && a.CloseRead?
    ensures SenderId(Act(x, a), id)
  {
    var here := a.id;
    if here in x.streams && !x.streams[here].closed && !x.streams[here].readClosed {
      var st := x.streams[here];
      var mid := Put(x, here, st.(readClosed := true, unread := []));
      SameSenderId(x, mid, id);
      if st.writeClosed { SameSenderId(mid, Remove(mid, here), id); }
    }
  }

  lemma OpenKeepsSender(x: Endpoint, a: Local)
    requires SenderInv(x) && a.OpenStream?
    ensures SenderInv(Act(x, a))
  {
    if !x.server && x.alive {
      var id := x.nextId + 1;
      var big := |a.payload| > MAX_FRAME;
      var mid := Put(x, id, if big then CloseNoSend(NEW, ConnFailed) else NEW).(nextId := id,
        registered := if big then x.registered - {id} else x.registered + {id});
      MakeStream(x, id, big, mid);
      if big {
        forall j ensures SenderId(mid, j) { assert SenderId(x, j) && SenderIdButOpen(mid, j) && SenderData(mid, j); }
      } else {
        QuietFrame(mid, Frame(OpenFrame, id, a.payload));
        SendKeepsSender(mid, Frame(OpenFrame, id, a.payload));
      }
    }
  }

  /** A new stream, before its open frame goes out. */
  lemma MakeStream(x: Endpoint, id: nat, big: bool, mid: Endpoint)
    requires SenderInv(x) && !x.server && x.alive && id == x.nextId + 1
    requires mid == Put(x, id, if big then CloseNoSend(NEW, ConnFailed) else NEW).(nextId := id,
      registered := if big then x.registered - {id} else x.registered + {id})
    ensures (forall j :: SenderIdButOpen(mid, j) && SenderData(mid, j)) && !Has(x.sent, OpenFrame, id)
    ensures forall k | 0 <= k < |mid.owed| :: OwedOk(mid, mid.owed[k])
    ensures forall j | j in mid.streams && j != id :: Has(mid.sent, OpenFrame, j) || (mid.streams[j].closed && mid.streams[j].writing == [])
  {
    assert SenderId(x, id);
    forall j ensures SenderIdButOpen(mid, j) && SenderData(mid, j) { assert SenderId(x, j); }
    forall k | 0 <= k < |mid.owed| ensures OwedOk(mid, mid.owed[k]) { assert OwedOk(x, x.owed[k]); }
    forall j | j in mid.streams && j != id
      ensures Has(mid.sent, OpenFrame, j) || (mid.streams[j].closed && mid.streams[j].writing == [])
    {
      assert SenderId(x, j);
    }
  }

  lemma EmitKeepsSender(x: Endpoint, a: Local)
    requires SenderInv(x) && a.EmitChunk?
    ensures SenderInv(Act(x, a))
  {
    var id := a.id;
    if id in x.streams && x.streams[id].writing != [] {
      if x.alive { ChunkKeepsSender(x, id); } else { CutKeepsSender(x, id); }
    }
  }

  lemma ChunkKeepsSender(x: Endpoint, id: nat)
    requires SenderInv(x) && x.alive && id in x.streams && x.streams[id].writing != []
    ensures SenderInv(Act(x, EmitChunk(id)))
  {
    assert SenderId(x, id);
    var st := x.streams[id];
    var n := Min(|st.writing|, MAX_DATA);
    var mid := Put(x, id, st.(writing := st.writing[n..], counted := st.counted + st.writing[..n]));
    forall j ensures SenderData(x, j) { assert SenderId(x, j); }
    ChunkFrame(x, id, n);
    forall j ensures SenderIdButOpen(mid, j) { assert SenderId(x, j); }
    forall k | 0 <= k < |mid.owed| ensures OwedOk(mid, mid.owed[k]) { assert OwedOk(x, x.owed[k]); }
    assert forall j | j in x.streams :: SenderId(x, j);
    SendKeepsSender(mid, Frame(DataFrame, id, st.writing[..n]));
  }

  /** On a dead session the rest of the Write is given up, uncounted. */
  lemma CutKeepsSender(x: Endpoint, id: nat)
    requires SenderInv(x) && !x.alive && id in x.streams && x.streams[id].writing != []
    ensures SenderInv(Act(x, EmitChunk(id)))
  {
    var x' := Act(x, EmitChunk(id));
    assert SenderId(x, id);
    assert x.streams[id].counted + [] == x.streams[id].counted;
    forall j ensures SenderId(x', j) { assert SenderId(x, j); }
    forall k | 0 <= k < |x'.owed| ensures OwedOk(x', x'.owed[k]) { assert OwedOk(x, x.owed[k]); }
  }

  lemma CloseKeepsSender(x: Endpoint, a: Local)
    requires SenderInv(x) && (a.CloseStream? || a.CloseWrite?)
    ensures SenderInv(Act(x, a))
  {
    var id, x' := a.id, Act(x, a);
    if x' != x {
      assert SenderId(x, id);
      var mid := x'.(sent := x.sent);
      if a.CloseStream? { StreamClosedKeepsIds(x, id, mid); } else { WriteClosedKeepsIds(x, id, mid); }
      forall k | 0 <= k < |mid.owed| ensures OwedOk(mid, mid.owed[k]) { assert OwedOk(x, x.owed[k]); }
      forall j ensures SenderIdButOpen(mid, j) { assert SenderId(mid, j); }
      assert forall j | j in mid.streams :: SenderId(mid, j);
      if x'.sent != x.sent {
        forall j ensures SenderData(mid, j) { assert SenderId(mid, j); }
        QuietFrame(mid, Frame(CloseFrame, id, []));
        SendKeepsSender(mid, Frame(CloseFrame, id, []));
        assert x' == mid.(sent := mid.sent + [Frame(CloseFrame, id, [])]);
      }
    }
  }

  lemma StreamClosedKeepsIds(x: Endpoint, id: nat, mid: Endpoint)
    requires SenderInv(x) && SenderId(x, id) && Act(x, CloseStream(id)) != x && mid == Act(x, CloseStream(id)).(sent := x.sent)
    ensures forall j :: SenderId(mid, j)
  {
    forall j ensures SenderId(mid, j) { assert SenderId(x, j); }
  }

  lemma WriteClosedKeepsIds(x: Endpoint, id: nat, mid: Endpoint)
    requires SenderInv(x) && SenderId(x, id) && Act(x, CloseWrite(id)) != x && mid == Act(x, CloseWrite(id)).(sent := x.sent)
    ensures forall j :: SenderId(mid, j)
  {
    forall j ensures SenderId(mid, j) { assert SenderId(x, j); }
  }

  lemma OwedKeepsSender(x: Endpoint, k: nat)
    requires SenderInv(x)
    ensures SenderInv(Act(x, SendOwed(k)))
  {
    if k < |x.owed| && x.owed[k] != [] {
      var rest := x.owed[k];
      var f := rest[0];
      assert OwedOk(x, rest) && SenderId(x, f.id);
      if x.alive {
        var quiet := x.(owed := x.owed[k := []]);
        forall j ensures SenderIdButOpen(quiet, j) { assert SenderId(x, j); }
        forall m | 0 <= m < |quiet.owed| ensures OwedOk(quiet, quiet.owed[m]) { assert m != k ==> OwedOk(x, x.owed[m]); }
        assert forall j | j in quiet.streams :: SenderId(x, j);
        forall j ensures SenderData(quiet, j) { assert SenderId(x, j); }
        QuietFrame(quiet, f);
        SendKeepsSender(quiet, f);
        var x' := Act(x, SendOwed(k));
        Snoc(x.sent, f, f.id);
        forall j ensures SenderId(x', j) { assert SenderId(quiet.(sent := x.sent + [f]), j); }
        forall m | 0 <= m < |x'.owed| ensures OwedOk(x', x'.owed[m]) {
          if m != k { assert OwedOk(quiet.(sent := x.sent + [f]), quiet.owed[m]); }
        }
      } else {
        DropKeepsSender(x, k);
      }
    }
  }

  /** On a dead session the frame is lost; the rest of the reset never matters again. */
  lemma DropKeepsSender(x: Endpoint, k: nat)
    requires SenderInv(x) && !x.alive && k < |x.owed| && x.owed[k] != []
    ensures SenderInv(x.(owed := x.owed[k := x.owed[k][1..]]))
  {
    var x' := x.(owed := x.owed[k := x.owed[k][1..]]);
    forall j ensures SenderId(x', j) { assert SenderId(x, j); }
    forall m | 0 <= m < |x'.owed| ensures OwedOk(x', x'.owed[m]) { assert OwedOk(x, x.owed[m]); }
  }

  // ---------------------------------------------------------------------------
  // The endpoint as receiver

  lemma FailKeepsReceiver(x: Endpoint, y: Endpoint, err: Error)
    requires ReceiverInv(x, y) && SenderInv(y)
    requires err == EOF ==> !x.alive && y.taken == |x.sent|
    ensures ReceiverInv(x, Fail(y, err))
  {
    var y' := Fail(y, err);
    assert y.taken == |x.sent| ==> x.sent[..y.taken] == x.sent;
    forall id ensures ReceiverId(x, y', id) { assert ReceiverId(x, y, id) && SenderId(y, id); }
  }

  /** What the receiving application does to a stream. */
  lemma ActKeepsReceiver(x: Endpoint, y: Endpoint, a: Local)
    requires ReceiverInv(x, y) && SenderInv(y)
    ensures ReceiverInv(x, Act(y, a))
  {
    if a.FailWith? {
      if a.err != EOF { FailKeepsReceiver(x, y, a.err); }
    } else {
      forall id ensures ReceiverId(x, Act(y, a), id) {
        assert ReceiverId(x, y, id) && SenderId(y, id) && SenderId(y, y.nextId + 1);
        ActOneStream(x, y, a, id);
      }
    }
  }

  lemma ActOneStream(x: Endpoint, y: Endpoint, a: Local, id: nat)
    requires y.taken <= |x.sent| && ReceiverId(x, y, id) && SenderId(y, id) && !a.FailWith?
    requires !y.server ==> y.nextId + 1 !in y.streams
    ensures y.taken <= |x.sent| && ReceiverId(x, Act(y, a), id)
  {
    if a.Read? {
      ReadOneStream(x, y, a, id);
    } else if a.OpenStream? {
      OpenOneStream(x, y, a, id);
    } else {
      ActLessens(y, a, id);
      LessReceiving(x, y, Act(y, a), id);
    }
  }

  lemma ReadOneStream(x: Endpoint, y: Endpoint, a: Local, id: nat)
    requires y.taken <= |x.sent| && ReceiverId(x, y, id) && a.Read?
    ensures y.taken <= |x.sent| && ReceiverId(x, Act(y, a), id)
  {
    if a.id == id && id in y.streams && 0 < a.n <= |y.streams[id].unread| {
      var st := y.streams[id];
      assert st.unread == st.unread[..a.n] + st.unread[a.n..];
      ConcatAssoc(st.got, st.unread[..a.n], st.unread[a.n..]);
    } else {
      LessReceiving(x, y, Act(y, a), id);
    }
  }

  lemma OpenOneStream(x: Endpoint, y: Endpoint, a: Local, id: nat)
    requires y.taken <= |x.sent| && ReceiverId(x, y, id) && a.OpenStream?
    requires !y.server ==> y.nextId + 1 !in y.streams
    ensures y.taken <= |x.sent| && ReceiverId(x, Act(y, a), id)
  {
    if !y.server && y.alive && id == y.nextId + 1 {
      assert NEW.got + NEW.unread == [];
    } else {
      LessReceiving(x, y, Act(y, a), id);
    }
  }

  /** A stream gives up receiving: it may drop what is unread, but then it is closed for reading. */
  ghost predicate Lessens(y: Endpoint, y': Endpoint, id: nat) {
    && y.taken == y'.taken && y.alive == y'.alive && y.server == y'.server
    && (id in y'.streams <==> id in y.streams) && (id in y'.registered ==> id in y.registered)
    && (id in y.streams ==>
          var st, st' := y.streams[id], y'.streams[id];
          && st'.got == st.got && st'.remoteClosed == st.remoteClosed
          && (st.closed ==> st'.closed && st'.err == st.err) && (st.readClosed ==> st'.readClosed)
          && (st'.unread == st.unread || (st'.unread == [] && st'.readClosed))
          && (!st'.closed ==> st'.err == st.err)
          && (st'.closed && !st.closed && st.err.None? ==> st'.err == Some(ClosedPipe))
          && (!st'.closed && !st'.readClosed && !st.remoteClosed && id in y.registered ==> id in y'.registered))
  }

  lemma LessReceiving(x: Endpoint, y: Endpoint, y': Endpoint, id: nat)
    requires y.taken <= |x.sent| && ReceiverId(x, y, id) && Lessens(y, y', id)
    ensures y'.taken <= |x.sent| && ReceiverId(x, y', id)
  {
    if id in y.streams {
      var st := y.streams[id];
      assert st.got + [] == st.got <= st.got + st.unread;
    }
  }

  lemma ActLessens(y: Endpoint, a: Local, id: nat)
    requires !a.Read? && !a.OpenStream? && !a.FailWith?
    ensures Lessens(y, Act(y, a), id)
  {
    if a.CloseStream? || a.CloseWrite? || a.CloseRead? {
      CloseLessens(y, a, id);
    } else if a.SendOwed? {
      var k := a.k;
      assert k < |y.owed| && y.owed[k] != [] && y.alive ==>
        Act(y, a) == y.(owed := y.owed[k := y.owed[k][1..]], sent := y.sent + [y.owed[k][0]]);
    }
  }

  lemma CloseLessens(y: Endpoint, a: Local, id: nat)
    requires a.CloseRead? || a.CloseStream? || a.CloseWrite?
    ensures Lessens(y, Act(y, a), id)
  {
    if a.CloseRead? {
      CloseReadLessens(y, a.id, id);
    } else if a.CloseStream? {
      CloseStreamLessens(y, a.id, id);
    } else {
      CloseWriteLessens(y, a.id, id);
    }
  }

  lemma CloseReadLessens(y: Endpoint, j: nat, id: nat)
    ensures Lessens(y, Act(y, CloseRead(j)), id)
  {
  }

  lemma CloseStreamLessens(y: Endpoint, j: nat, id: nat)
    ensures Lessens(y, Act(y, CloseStream(j)), id)
  {
  }

  lemma CloseWriteLessens(y: Endpoint, j: nat, id: nat)
    ensures Lessens(y, Act(y, CloseWrite(j)), id)
  {
  }

  /** One stream's receiving flags change, an id leaves the table, a reset is owed: nothing a sender depends on. */
  lemma ReceivingKeepsSender(y: Endpoint, y': Endpoint, id: nat)
    requires SenderInv(y) && id in y.streams && id in y'.streams
    requires y'.streams == y.streams[id := y'.streams[id]]
    requires var st, st' := y.streams[id], y'.streams[id];
      && st'.writeClosed == st.writeClosed && st'.writing == st.writing && (st.closed ==> st'.closed)
      && st'.wrote == st.wrote && st'.counted == st.counted
    requires y'.sent == y.sent && y'.server == y.server && y'.nextId == y.nextId && y'.alive == y.alive
    requires y'.registered <= y.registered && (id in y'.registered ==> !y'.streams[id].closed)
    requires y'.owed == y.owed || (y'.owed == Owe(y, id).owed && id in y.registered)
    ensures SenderInv(y')
  {
    forall j ensures SenderId(y', j) { assert SenderId(y, j); }
    assert SenderId(y, id);
    forall k | 0 <= k < |y'.owed| ensures OwedOk(y', y'.owed[k]) {
      if k < |y.owed| { assert OwedOk(y, y.owed[k]); }
    }
  }

  /** Demuxing a frame changes nothing the endpoint's sender invariant depends on. */
  lemma DemuxKeepsSender(y: Endpoint, f: Frame)
    requires SenderInv(y) && |f.payload| <= MAX_FRAME
    requires f.kind.OpenFrame? ==> y.server && f.id != 0 && f.id !in y.streams
    ensures SenderInv(Demux(y, f))
  {
    var y' := Demux(y, f);
    assert SenderId(y, f.id);
    if f.kind.OpenFrame? {
      AcceptKeepsSender(y, f);
    } else if f.id in y.registered {
      if f.kind.DataFrame? { EnqueueKeepsSender(y, f); } else { ReceivingKeepsSender(y, y', f.id); }
    }
  }

  lemma EnqueueKeepsSender(y: Endpoint, f: Frame)
    requires SenderInv(y) && |f.payload| <= MAX_FRAME && f.kind.DataFrame? && f.id in y.registered
    ensures SenderInv(Demux(y, f))
  {
    assert SenderId(y, f.id);
    if f.payload != [] { ReceivingKeepsSender(y, Demux(y, f), f.id); }
  }

  lemma AcceptKeepsSender(y: Endpoint, f: Frame)
    requires SenderInv(y) && |f.payload| <= MAX_FRAME && f.kind.OpenFrame? && f.id !in y.registered && y.server && f.id != 0
    requires f.id !in y.streams
    ensures SenderInv(Demux(y, f))
  {
    var y' := Demux(y, f);
    forall j ensures SenderId(y', j) { assert SenderId(y, j); }
    forall k | 0 <= k < |y'.owed| ensures OwedOk(y', y'.owed[k]) { assert OwedOk(y, y.owed[k]); }
  }

  /** The next frame of the peer is one this endpoint can make sense of. */
  ghost predicate Sensible(y: Endpoint, f: Frame) {
    && |f.payload| <= MAX_FRAME
    && (f.kind.OpenFrame? ==> y.server && f.id != 0 && f.id !in y.streams)
    && ((f.kind.DataFrame? && f.payload != []) || f.kind.ResetFrame? || f.kind.CloseFrame? ==> f.id in y.streams)
  }

  lemma DemuxKeepsReceiver(x: Endpoint, y: Endpoint)
    requires ReceiverInv(x, y) && SenderInv(x) && SenderInv(y) && y.alive && y.taken < |x.sent|
    requires Sensible(y, x.sent[y.taken])
    ensures ReceiverInv(x, ReceiveNext(x, y))
  {
    var f, y' := x.sent[y.taken], ReceiveNext(x, y);
    forall id ensures ReceiverId(x, y', id) {
      assert ReceiverId(x, y, id) && SenderId(y, id) && SenderId(x, id);
      if f.id != id {
        OtherStream(x, y, f, id);
      } else if f.kind.DataFrame? {
        DataForStream(x, y, f);
      } else {
        ControlForStream(x, y, f);
      }
    }
  }

  ghost predicate Turn(x: Endpoint, y: Endpoint, f: Frame, id: nat) {
    && y.alive && y.taken < |x.sent| && f == x.sent[y.taken] && Sensible(y, f)
    && ReceiverId(x, y, id) && SenderId(y, id) && SenderId(x, id)
  }

  lemma DemuxElsewhere(y: Endpoint, f: Frame, id: nat)
    requires Sensible(y, f) && f.id != id
    ensures var y' := Demux(y, f);
      && (id in y'.streams <==> id in y.streams) && (id in y.streams ==> y'.streams[id] == y.streams[id])
      && (id in y'.registered <==> id in y.registered) && y'.alive == y.alive && y'.server == y.server
  {
  }

  lemma OtherStream(x: Endpoint, y: Endpoint, f: Frame, id: nat)
    requires Turn(x, y, f, id) && f.id != id
    ensures ReceiverId(x, ReceiveNext(x, y), id)
  {
    var taken := x.sent[..y.taken];
    OneMore(x.sent, y.taken);
    Snoc(taken, f, id);
    DemuxElsewhere(y, f, id);
    MoreTaken(x, y, ReceiveNext(x, y), id);
  }

  /** A stream untouched by the frame just taken. */
  lemma MoreTaken(x: Endpoint, y: Endpoint, y': Endpoint, id: nat)
    requires y.taken < |x.sent| && y'.taken == y.taken + 1 && ReceiverId(x, y, id)
    requires y.alive && y'.alive && y.server == y'.server
    requires (id in y'.streams <==> id in y.streams) && (id in y.streams ==> y'.streams[id] == y.streams[id])
    requires id in y'.registered <==> id in y.registered
    requires var t, t' := x.sent[..y.taken], x.sent[..y'.taken];
      && DataOf(t', id) == DataOf(t, id)
      && Has(t', ResetFrame, id) == Has(t, ResetFrame, id) && Has(t', OpenFrame, id) == Has(t, OpenFrame, id)
      && CleanClose(t', id) == CleanClose(t, id)
    ensures ReceiverId(x, y', id)
  {
  }

  lemma OneMore(frames: seq<Frame>, k: nat)
    requires k < |frames|
    ensures frames[..k + 1] == frames[..k] + [frames[k]]
  {
  }

  lemma ControlForStream(x: Endpoint, y: Endpoint, f: Frame)
    requires Turn(x, y, f, f.id) && !f.kind.DataFrame?
    ensures ReceiverId(x, ReceiveNext(x, y), f.id)
  {
    if f.kind.OpenFrame? {
      OpenForStream(x, y, f);
    } else if f.kind.CloseFrame? {
      CloseForStream(x, y, f);
    } else {
      ResetForStream(x, y, f);
    }
  }

  lemma OpenForStream(x: Endpoint, y: Endpoint, f: Frame)
    requires Turn(x, y, f, f.id) && f.kind.OpenFrame?
    ensures ReceiverId(x, ReceiveNext(x, y), f.id)
  {
    var taken := x.sent[..y.taken];
    OneMore(x.sent, y.taken);
    Snoc(taken, f, f.id);
  }

  lemma CloseForStream(x: Endpoint, y: Endpoint, f: Frame)
    requires Turn(x, y, f, f.id) && f.kind.CloseFrame?
    ensures ReceiverId(x, ReceiveNext(x, y), f.id)
  {
    var taken := x.sent[..y.taken];
    OneMore(x.sent, y.taken);
    Snoc(taken, f, f.id);
  }

  lemma ResetForStream(x: Endpoint, y: Endpoint, f: Frame)
    requires Turn(x, y, f, f.id) && f.kind.ResetFrame?
    ensures ReceiverId(x, ReceiveNext(x, y), f.id)
  {
    var taken := x.sent[..y.taken];
    OneMore(x.sent, y.taken);
    Snoc(taken, f, f.id);
    if f.id in y.registered {
      ResetKnown(x, y, f);
    }
  }

  lemma ResetKnown(x: Endpoint, y: Endpoint, f: Frame)
    requires Turn(x, y, f, f.id) && f.kind.ResetFrame? && f.id in y.registered
    ensures ReceiverId(x, ReceiveNext(x, y), f.id)
  {
    var taken, y' := x.sent[..y.taken], ReceiveNext(x, y);
    OneMore(x.sent, y.taken);
    Snoc(taken, f, f.id);
    assert ReceiverStream(x, y', f.id, y'.streams[f.id], taken + [f]);
  }

  /** Nothing arrives for a stream after its clean close. */
  lemma NoDataAfterClose(x: Endpoint, t: nat, f: Frame)
    requires t < |x.sent| && f == x.sent[t] && f.kind.DataFrame?
    requires Frozen(x.sent, f.id) && CleanClose(x.sent[..t], f.id)
    ensures f.payload == []
  {
    assert x.sent[..t + 1] == x.sent[..t] + [f];
    Snoc(x.sent[..t], f, f.id);
    assert CleanClose(x.sent[..t + 1], f.id);
  }

  lemma DataForStream(x: Endpoint, y: Endpoint, f: Frame)
    requires Turn(x, y, f, f.id) && f.kind.DataFrame?
    ensures ReceiverId(x, ReceiveNext(x, y), f.id)
  {
    if f.payload == [] {
      EmptyForStream(x, y, f);
    } else {
      EnqueueForStream(x, y, f);
    }
  }

  lemma EmptyForStream(x: Endpoint, y: Endpoint, f: Frame)
    requires y.alive && y.taken < |x.sent| && f == x.sent[y.taken] && ReceiverId(x, y, f.id)
    requires f.kind.DataFrame? && f.payload == []
    ensures ReceiverId(x, y.(taken := y.taken + 1), f.id)
  {
    var taken := x.sent[..y.taken];
    OneMore(x.sent, y.taken);
    Snoc(taken, f, f.id);
    assert DataOf(taken, f.id) + [] == DataOf(taken, f.id);
    MoreTaken(x, y, y.(taken := y.taken + 1), f.id);
  }

  lemma EnqueueForStream(x: Endpoint, y: Endpoint, f: Frame)
    requires Turn(x, y, f, f.id) && f.kind.DataFrame? && f.payload != []
    ensures ReceiverId(x, ReceiveNext(x, y), f.id)
  {
    if y.streams[f.id].closed { EnqueueClosed(x, y, f); } else { EnqueueOpen(x, y, f); }
  }

  lemma EnqueueClosed(x: Endpoint, y: Endpoint, f: Frame)
    requires Turn(x, y, f, f.id) && f.kind.DataFrame? && f.payload != [] && y.streams[f.id].closed
    ensures ReceiverId(x, ReceiveNext(x, y), f.id)
  {
    var taken := x.sent[..y.taken];
    OneMore(x.sent, y.taken);
    Snoc(taken, f, f.id);
  }

  lemma EnqueueOpen(x: Endpoint, y: Endpoint, f: Frame)
    requires Turn(x, y, f, f.id) && f.kind.DataFrame? && f.payload != [] && !y.streams[f.id].closed
    ensures ReceiverId(x, ReceiveNext(x, y), f.id)
  {
    if Enqueue(y.streams[f.id], f.payload).1 { EnqueueFull(x, y, f); } else { EnqueueFits(x, y, f); }
  }

  lemma EnqueueFull(x: Endpoint, y: Endpoint, f: Frame)
    requires Turn(x, y, f, f.id) && f.kind.DataFrame? && f.payload != [] && Enqueue(y.streams[f.id], f.payload).1
    ensures ReceiverId(x, ReceiveNext(x, y), f.id)
  {
    var taken := x.sent[..y.taken];
    OneMore(x.sent, y.taken);
    Snoc(taken, f, f.id);
  }

  lemma EnqueueFits(x: Endpoint, y: Endpoint, f: Frame)
    requires Turn(x, y, f, f.id) && f.kind.DataFrame? && f.payload != [] && !y.streams[f.id].closed
    requires !Enqueue(y.streams[f.id], f.payload).1
    ensures ReceiverId(x, ReceiveNext(x, y), f.id)
  {
    var taken, st := x.sent[..y.taken], y.streams[f.id];
    OneMore(x.sent, y.taken);
    Snoc(taken, f, f.id);
    if st.remoteClosed { NoDataAfterClose(x, y.taken, f); }
    ConcatAssoc(st.got, st.unread, f.payload);
    var y' := ReceiveNext(x, y);
    assert ReceiverStream(x, y', f.id, y'.streams[f.id], taken + [f]);
  }

  // ---------------------------------------------------------------------------
  // Every reachable state

  lemma ServerTakesSensible(m: System)
    requires Inv(m) && m.server.taken < |m.client.sent|
    ensures Sensible(m.server, m.client.sent[m.server.taken])
  {
    var x, y := m.client, m.server;
    var f := x.sent[y.taken];
    var before := x.sent[..y.taken];
    assert x.sent[..y.taken + 1] == before + [f];
    assert SenderId(x, f.id) && ReceiverId(x, y, f.id);
    Snoc(before, f, f.id);
    HasIn(x.sent, y.taken, f.id);
    if f.id !in y.streams {
      assert OpenFirst(x.sent, f.id);
      assert DataOf(before + [f], f.id) == [] + (if f.kind.DataFrame? then f.payload else []);
    }
  }

  lemma {:induction false} HasIn(frames: seq<Frame>, t: nat, id: nat)
    requires t < |frames| && frames[t].id == id
    ensures Has(frames, frames[t].kind, id)
    ensures frames[t].kind.DataFrame? && frames[t].payload != [] ==> DataOf(frames, id) != []
    decreases |frames|
  {
    if t < |frames| - 1 { HasIn(frames[..|frames| - 1], t, id); }
  }

  lemma ClientTakesSensible(m: System)
    requires Inv(m) && m.client.taken < |m.server.sent|
    ensures Sensible(m.client, m.server.sent[m.client.taken])
  {
    var x, t := m.server, m.client.taken;
    var f := x.sent[t];
    assert SenderId(x, f.id);
    HasIn(x.sent, t, f.id);
    if f.kind.CloseFrame? {
      OneMore(x.sent, t);
      Snoc(x.sent[..t], f, f.id);
      if Has(x.sent[..t], ResetFrame, f.id) { HasGrows(x.sent, t, ResetFrame, f.id); } else { CleanCloseGrows(x.sent, t + 1, f.id); }
    }
  }

  lemma {:induction false} HasGrows(frames: seq<Frame>, t: nat, kind: Kind, id: nat)
    requires t <= |frames| && Has(frames[..t], kind, id)
    ensures Has(frames, kind, id)
    decreases |frames|
  {
    if t == |frames| {
      assert frames[..t] == frames;
    } else {
      assert frames[..|frames| - 1][..t] == frames[..t];
      HasGrows(frames[..|frames| - 1], t, kind, id);
    }
  }

  /** What one endpoint's own step does to its role as sender towards the other. */
  ghost predicate Extends(x: Endpoint, x': Endpoint) {
    && x'.server == x.server && x.sent <= x'.sent && (!x.alive ==> !x'.alive && x'.sent == x.sent)
    && x.streams.Keys <= x'.streams.Keys
  }

  lemma ActExtends(x: Endpoint, a: Local)
    ensures Extends(x, Act(x, a))
    ensures x.server ==> Act(x, a).streams.Keys == x.streams.Keys
  {
  }

  lemma ReceiveExtends(x: Endpoint, y: Endpoint)
    ensures Extends(y, ReceiveNext(x, y)) && Extends(y, SeeEof(x, y))
    ensures SeeEof(x, y).streams.Keys == y.streams.Keys
    ensures forall id | id in ReceiveNext(x, y).streams ::
      id in y.streams || (y.taken < |x.sent| && x.sent[y.taken].kind.OpenFrame? && x.sent[y.taken].id == id)
  {
  }

  lemma ServerStepKeepsInv(m: System, a: Action)
    requires Inv(m) && (a.AtServer? || ((a.Receive? || a.ConnectionEof?) && a.byServer))
    ensures Inv(Apply(m, a))
  {
    var x, y, y' := m.client, m.server, Apply(m, a).server;
    match a {
    case AtServer(l) =>
      ActKeepsSender(y, l);
      ActKeepsReceiver(x, y, l);
      ActExtends(y, l);
    case Receive(_) =>
      ReceiveExtends(x, y);
      if y.alive && y.taken < |x.sent| {
        var f := x.sent[y.taken];
        ServerTakesSensible(m);
        DemuxKeepsSender(y, f);
        TakenKeepsSender(Demux(y, f), y.taken + 1);
        DemuxKeepsReceiver(x, y);
        assert SenderId(x, f.id);
        HasIn(x.sent, y.taken, f.id);
      }
    case ConnectionEof(_) =>
      ReceiveExtends(x, y);
      if !x.alive && y.taken == |x.sent| {
        FailKeepsSender(y, EOF);
        FailKeepsReceiver(x, y, EOF);
      }
    }
    PeerMayGrow(y, y', x);
  }

  lemma ClientStepKeepsInv(m: System, a: Action)
    requires Inv(m) && (a.AtClient? || ((a.Receive? || a.ConnectionEof?) && !a.byServer))
    ensures Inv(Apply(m, a))
  {
    var x, y, y' := m.server, m.client, Apply(m, a).client;
    match a {
    case AtClient(l) =>
      ActKeepsSender(y, l);
      ActKeepsReceiver(x, y, l);
      ActExtends(y, l);
    case Receive(_) =>
      ReceiveExtends(x, y);
      if y.alive && y.taken < |x.sent| {
        var f := x.sent[y.taken];
        ClientTakesSensible(m);
        DemuxKeepsSender(y, f);
        TakenKeepsSender(Demux(y, f), y.taken + 1);
        DemuxKeepsReceiver(x, y);
      }
    case ConnectionEof(_) =>
      ReceiveExtends(x, y);
      if !x.alive && y.taken == |x.sent| {
        FailKeepsSender(y, EOF);
        FailKeepsReceiver(x, y, EOF);
      }
    }
    PeerMayGrow(y, y', x);
  }

  lemma TakenKeepsSender(y: Endpoint, taken: nat)
    requires SenderInv(y)
    ensures SenderInv(y.(taken := taken))
  {
    var y' := y.(taken := taken);
    forall id ensures SenderId(y', id) { assert SenderId(y, id); }
    forall k | 0 <= k < |y'.owed| ensures OwedOk(y', y'.owed[k]) { assert OwedOk(y, y.owed[k]); }
  }

  predicate IsServerAction(a: Action) {
    a.AtServer? || ((a.Receive? || a.ConnectionEof?) && a.byServer)
  }

  lemma {:induction false} ReachableInv(actions: seq<Action>)
    ensures Inv(Exec(actions))
  {
    if actions != [] {
      ReachableInv(actions[..|actions| - 1]);
      var m, a := Exec(actions[..|actions| - 1]), actions[|actions| - 1];
      if IsServerAction(a) { ServerStepKeepsInv(m, a); } else { ClientStepKeepsInv(m, a); }
    }
  }

  lemma {:induction false} RunExtends(actions: seq<Action>, more: seq<Action>)
    ensures Grows(Exec(actions), Exec(actions + more))
    decreases |more|
  {
    if more == [] {
      assert actions + more == actions;
    } else {
      var init, a := more[..|more| - 1], more[|more| - 1];
      RunExtends(actions, init);
      assert actions + more == (actions + init) + [a];
      ExecStep(actions + init, a);
      StepExtends(Exec(actions + init), a);
      GrowsMore(Exec(actions), Exec(actions + init), Exec(actions + more));
    }
  }

  ghost predicate Grows(m: System, n: System) {
    Extends(m.client, n.client) && Extends(m.server, n.server)
  }

  lemma GrowsMore(a: System, b: System, c: System)
    requires Grows(a, b) && Grows(b, c)
    ensures Grows(a, c)
  {
  }

  lemma StepExtends(m: System, a: Action)
    ensures Grows(m, Apply(m, a))
  {
    match a {
      case AtClient(l) => ActExtends(m.client, l);
      case AtServer(l) => ActExtends(m.server, l);
      case Receive(byServer) => if byServer { ReceiveExtends(m.client, m.server); } else { ReceiveExtends(m.server, m.client); }
      case ConnectionEof(byServer) => if byServer { ReceiveExtends(m.client, m.server); } else { ReceiveExtends(m.server, m.client); }
    }
  }

  function ActAll(e: Endpoint, steps: seq<Local>): Endpoint
    decreases steps
  {
    if steps == [] then e else ActAll(Act(e, steps[0]), steps[1..])
  }

  lemma ActTwice(e: Endpoint, a: Local, b: Local)
    ensures ActAll(e, [a, b]) == Act(Act(e, a), b)
  {
    var one := [b];
    assert [a, b][1..] == one && one[1..] == [];
    assert ActAll(Act(e, a), one) == ActAll(Act(Act(e, a), b), []);
  }

  /** A whole Write, also one that the connection cuts off, is a sequence of the steps above. */
  lemma {:induction false} WriteIsSteps(e: Endpoint, id: nat, room: nat) returns (steps: seq<Local>)
    requires id in e.streams
    ensures ActAll(e, steps) == WriteOut(e, id, room)
    decreases |e.streams[id].writing|
  {
    if e.streams[id].writing == [] {
      steps := [];
    } else if e.alive && room > 0 {
      var rest := WriteIsSteps(Act(e, EmitChunk(id)), id, room - 1);
      steps := [EmitChunk(id)] + rest;
      assert steps[1..] == rest;
    } else {
      steps := [FailWith(ConnFailed), EmitChunk(id)];
      ActTwice(e, FailWith(ConnFailed), EmitChunk(id));
    }
  }

  // ---------------------------------------------------------------------------
  // Main results

  function Near(m: System, atServer: bool): Endpoint {
    if atServer then m.server else m.client
  }

  /** What the application gave to Write for a stream, and what its Writes counted as written. */
  function Wrote(x: Endpoint, id: nat): Bytes { if id in x.streams then x.streams[id].wrote else [] }

  function Counted(x: Endpoint, id: nat): Bytes { if id in x.streams then x.streams[id].counted else [] }

  lemma SentIsCounted(x: Endpoint, id: nat)
    requires SenderId(x, id)
    ensures DataOf(x.sent, id) == Counted(x, id) <= Wrote(x, id)
    ensures CleanClose(x.sent, id) ==> Counted(x, id) == Wrote(x, id)
  {
    if id in x.streams {
      var st := x.streams[id];
      assert st.counted <= st.counted + st.writing;
      assert st.counted + [] == st.counted;
    }
  }

  /**
   Isolation: whatever the interleaving of streams, closes, resets and failures,
   what the application has read from a stream is a prefix of what the peer's
   Writes counted, and so of what the peer wrote, on that same stream; and the
   unread backlog stays within its bound.
   */
  lemma StreamsAreIsolated(actions: seq<Action>, atServer: bool, id: nat)
    requires id in Near(Exec(actions), atServer).streams
    ensures var st, peer := Near(Exec(actions), atServer).streams[id], Near(Exec(actions), !atServer);
      st.got <= Counted(peer, id) <= Wrote(peer, id) && |st.unread| <= MAX_QUEUED
  {
    ReachableInv(actions);
    var m := Exec(actions);
    var x, y := Near(m, !atServer), Near(m, atServer);
    assert ReceiverId(x, y, id) && SenderId(x, id);
    assert y.streams[id].got <= y.streams[id].got + y.streams[id].unread;
    DataGrows(x.sent, y.taken, id);
    SentIsCounted(x, id);
  }

  lemma {:induction false} DataGrows(frames: seq<Frame>, t: nat, id: nat)
    requires t <= |frames|
    ensures DataOf(frames[..t], id) <= DataOf(frames, id)
    decreases |frames|
  {
    if t == |frames| {
      assert frames[..t] == frames;
    } else {
      assert frames[..|frames| - 1][..t] == frames[..t];
      DataGrows(frames[..|frames| - 1], t, id);
    }
  }

  /** Read answers io.EOF with nothing left to hand out; `shut` says whether the reader had shut its own reading side. */
  ghost predicate EofAnswered(y: Endpoint, id: nat, shut: bool) {
    && id in y.streams && y.streams[id].unread == [] && y.streams[id].readClosed == shut
    && ReadError(y.streams[id]) == Some(EOF)
  }

  /**
   End of stream is honest unless the reader has shut its own reading side: when
   Read returns io.EOF, everything the peer's Writes ever count, in this run and
   every continuation, has been read; after the peer's half-close that is
   everything it wrote, otherwise the peer's session is dead.
   */
  lemma EofMeansAllDelivered(actions: seq<Action>, more: seq<Action>, atServer: bool, id: nat)
    requires EofAnswered(Near(Exec(actions), atServer), id, false)
    ensures var st, peer := Near(Exec(actions), atServer).streams[id], Near(Exec(actions + more), !atServer);
      && st.got == Counted(peer, id)
      && (if st.closed then !peer.alive else st.got == Wrote(peer, id))
  {
    ReachableInv(actions);
    ReachableInv(actions + more);
    RunExtends(actions, more);
    var m, m' := Exec(actions), Exec(actions + more);
    var x, x', y := Near(m, !atServer), Near(m', !atServer), Near(m, atServer);
    var st := y.streams[id];
    assert ReceiverId(x, y, id) && SenderId(x', id);
    assert st.got + st.unread == st.got;
    var t := y.taken;
    assert x'.sent[..t] == x.sent[..t];
    if !st.closed {
      assert CleanClose(x'.sent[..t], id);
      CleanCloseGrows(x'.sent, t, id);
    } else {
      assert x'.sent == x.sent == x.sent[..t];
    }
    SentIsCounted(x', id);
  }

  // A run of eight steps, by the states it goes through.
  const OPEN := Frame(OpenFrame, 1, [])
  const DATA := Frame(DataFrame, 1, [7])
  const SHUT := NEW.(readClosed := true)
  const BUSY := NEW.(writing := [7], wrote := [7])
  const DONE := NEW.(wrote := [7], counted := [7])
  const DEAF := Endpoint(true, true, map[1 := SHUT], {1}, 0, [], 1, [])

  function Opened(st: Stream, sent: seq<Frame>): Endpoint {
    Endpoint(false, true, map[1 := st], {1}, 1, sent, 0, [])
  }

  lemma FirstHalf()
    ensures Apply(System(Fresh(false), Fresh(true)), AtClient(OpenStream([]))) == System(Opened(NEW, [OPEN]), Fresh(true))
    ensures Apply(System(Opened(NEW, [OPEN]), Fresh(true)), Receive(true))
         == System(Opened(NEW, [OPEN]), Endpoint(true, true, map[1 := NEW], {1}, 0, [], 1, []))
    ensures Apply(System(Opened(NEW, [OPEN]), Endpoint(true, true, map[1 := NEW], {1}, 0, [], 1, [])), AtServer(CloseRead(1)))
         == System(Opened(NEW, [OPEN]), DEAF)
    ensures Apply(System(Opened(NEW, [OPEN]), DEAF), AtClient(BeginWrite(1, [7]))) == System(Opened(BUSY, [OPEN]), DEAF)
  {
    var w: Bytes := [7];
    assert [] + w == w;
  }

  lemma WriteSeven()
    ensures Apply(System(Opened(BUSY, [OPEN]), DEAF), AtClient(EmitChunk(1))) == System(Opened(DONE, [OPEN, DATA]), DEAF)
    ensures Apply(System(Opened(DONE, [OPEN, DATA]), DEAF), Receive(true))
         == System(Opened(DONE, [OPEN, DATA]), DEAF.(taken := 2))
  {
    var w: Bytes := [7];
    assert w[..1] == w && w[1..] == [] && [] + w == w;
    assert [OPEN] + [DATA] == [OPEN, DATA];
  }

  lemma BreakOff()
    ensures var x := Fail(Opened(DONE, [OPEN, DATA]), ClosedPipe);
      && Apply(System(Opened(DONE, [OPEN, DATA]), DEAF.(taken := 2)), AtClient(FailWith(ClosedPipe)))
         == System(x, DEAF.(taken := 2))
      && Apply(System(x, DEAF.(taken := 2)), ConnectionEof(true)) == System(x, Fail(DEAF.(taken := 2), EOF))
    ensures ReadError(Fail(DEAF.(taken := 2), EOF).streams[1]) == Some(EOF)
  {
  }

  lemma ExecStep(actions: seq<Action>, a: Action)
    ensures Exec(actions + [a]) == Apply(Exec(actions), a)
  {
    assert (actions + [a])[..|actions|] == actions;
  }

  /**
   After CloseRead it is not: the reader drops the data, the connection ends
   cleanly, and Read still answers io.EOF instead of a closed-pipe error.
   */
  lemma EofAfterCloseRead() returns (actions: seq<Action>)
    ensures var m := Exec(actions);
      && 1 in m.server.streams && m.server.streams[1].unread == [] && ReadError(m.server.streams[1]) == Some(EOF)
      && m.server.streams[1].readClosed && m.server.streams[1].got == [] && Counted(m.client, 1) == [7]
  {
    FirstHalf();
    ExecStep([], AtClient(OpenStream([])));
    actions := [] + [AtClient(OpenStream([]))];
    ExecStep(actions, Receive(true));
    actions := actions + [Receive(true)];
    ExecStep(actions, AtServer(CloseRead(1)));
    actions := actions + [AtServer(CloseRead(1))];
    ExecStep(actions, AtClient(BeginWrite(1, [7])));
    actions := actions + [AtClient(BeginWrite(1, [7]))];
    assert Exec(actions) == System(Opened(BUSY, [OPEN]), DEAF);
    WriteSeven();
    BreakOff();
    ExecStep(actions, AtClient(EmitChunk(1)));
    actions := actions + [AtClient(EmitChunk(1))];
    ExecStep(actions, Receive(true));
    actions := actions + [Receive(true)];
    ExecStep(actions, AtClient(FailWith(ClosedPipe)));
    actions := actions + [AtClient(FailWith(ClosedPipe))];
    ExecStep(actions, ConnectionEof(true));
    actions := actions + [ConnectionEof(true)];
  }

  /** In every run, everything counted has been read when io.EOF is answered. */
  ghost predicate EofIsHonest(shut: bool) {
    forall actions, atServer, id | EofAnswered(Near(Exec(actions), atServer), id, shut) ::
      Near(Exec(actions), atServer).streams[id].got == Counted(Near(Exec(actions), !atServer), id)
  }

  /** The exact condition: io.EOF can be relied on if and only if the reading side was not shut. */
  lemma EofIsHonestIff(shut: bool)
    ensures EofIsHonest(shut) <==> !shut
  {
    if shut {
      var actions := EofAfterCloseRead();
      assert EofAnswered(Near(Exec(actions), true), 1, true);
    } else {
      forall actions, atServer, id | EofAnswered(Near(Exec(actions), atServer), id, shut)
        ensures Near(Exec(actions), atServer).streams[id].got == Counted(Near(Exec(actions), !atServer), id)
      {
        EofMeansAllDelivered(actions, [], atServer, id);
        assert actions + [] == actions;
      }
    }
  }
}
