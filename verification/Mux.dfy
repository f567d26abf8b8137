/**
 The multiplexer: many half-closable streams over one FIFO connection. This
 module has one endpoint: the stream with its bounded receive queue, the demux
 loop, and the operations of the application.
 */
module Mux {
  import opened Common

  const MAX_QUEUED := 4 * 1024 * 1024
  const MAX_FRAME := 256 * 1024
  const MAX_DATA := 128 * 1024

  datatype Error = EOF | ClosedPipe | QueueFull | ResetByPeer | ConnFailed

  datatype Kind = OpenFrame | DataFrame | CloseFrame | ResetFrame

  datatype Frame = Frame(kind: Kind, id: nat, payload: Bytes)

  /**
   One stream: its flags, the bytes received and not read yet, the rest of a
   Write in progress, and three histories: everything Read handed out, everything
   an accepted Write was given, and what of that its Writes counted as written.
   */
  datatype Stream = Stream(
    closed: bool, readClosed: bool, writeClosed: bool, remoteClosed: bool, err: Option<Error>,
    unread: Bytes, writing: Bytes, got: Bytes, wrote: Bytes, counted: Bytes)

  const NEW := Stream(false, false, false, false, None, [], [], [], [], [])

  // ---------------------------------------------------------------------------
  // Stream operations

  function CloseNoSend(st: Stream, err: Error): Stream {
    if st.closed then st else st.(closed := true, err := if st.err.None? then Some(err) else st.err)
  }

  /** Take a payload: whether it did not fit, and the stream afterwards. */
  function Enqueue(st: Stream, payload: Bytes): (Stream, bool) {
    if st.closed || st.readClosed || st.remoteClosed then (st, false)
    else if |st.unread| + |payload| > MAX_QUEUED then (st, true)
    else (st.(unread := st.unread + payload), false)
  }

  /** What Read returns once nothing is left to hand out; None while it would still wait. */
  function ReadError(st: Stream): Option<Error>
    requires st.unread == []
  {
    if st.closed then Some(if st.err.None? then ClosedPipe else st.err.value)
    else if st.readClosed then Some(ClosedPipe)
    else if st.remoteClosed then Some(EOF)
    else None
  }

  /** The stream object: the received payloads in a buffer and a queue behind it. */
  class StreamConn {
    var closed: bool
    var localReadClosed: bool
    var localWriteClosed: bool
    var remoteWriteClosed: bool
    var closeErr: Option<Error>
    var readBuf: Bytes
    var queue: seq<Bytes>
    var queuedBytes: int
    ghost var writing: Bytes
    ghost var got: Bytes
    ghost var wrote: Bytes
    ghost var counted: Bytes

    ghost predicate Valid()
      reads this
    {
      && queuedBytes == |readBuf| + |Flatten(queue)| <= MAX_QUEUED
      && (forall i | 0 <= i < |queue| :: queue[i] != [])
    }

    ghost function View(): Stream
      reads this
    {
      Stream(closed, localReadClosed, localWriteClosed, remoteWriteClosed, closeErr,
             readBuf + Flatten(queue), writing, got, wrote, counted)
    }

    constructor ()
      ensures Valid() && View() == NEW
    {
      closed, localReadClosed, localWriteClosed, remoteWriteClosed := false, false, false, false;
      closeErr, readBuf, queue, queuedBytes, writing, got, wrote, counted := None, [], [], 0, [], [], [], [];
    }

    /** The payload that Read hands out next, or the rest of it. */
    ghost function Front(): Bytes
      reads this
    {
      if readBuf != [] then readBuf else if queue != [] then queue[0] else []
    }

    method EnqueuePayload(payload: Bytes) returns (full: bool)
      requires Valid() && payload != []
      modifies this
      ensures Valid() && (View(), full) == Enqueue(old(View()), payload)
    {
      if closed || localReadClosed || remoteWriteClosed { return false; }
      if queuedBytes + |payload| > MAX_QUEUED { return true; }
      queuedBytes := queuedBytes + |payload|;
      if |readBuf| == 0 && |queue| == 0 {
        readBuf := payload;
        assert payload + Flatten<byte>([]) == [] + Flatten<byte>([]) + payload;
      } else {
        FlattenSnoc(queue, payload);
        ConcatAssoc(readBuf, Flatten(queue), payload);
        queue := queue + [payload];
      }
      return false;
    }

    /** Read into a buffer of `size` bytes; `waits` stands for blocking on the condition variable. */
    method Read(size: nat) returns (out: Bytes, err: Option<Error>, waits: bool)
      requires Valid() && size > 0
      modifies this
      ensures Valid()
      ensures old(View()).unread == [] ==>
        View() == old(View()) && out == [] && err == ReadError(old(View())) && (waits <==> err.None?)
      ensures old(View()).unread != [] ==>
        && err.None? && !waits && out <= old(View()).unread && |out| == Min(size, |old(Front())|) > 0
        && View() == old(View()).(unread := old(View()).unread[|out|..], got := old(View()).got + out)
    {
      if |readBuf| == 0 && |queue| == 0 && !closed && !localReadClosed && !remoteWriteClosed {
        return [], None, true;
      }
      TakeFromQueue();
      if |readBuf| == 0 {
        if closed {
          return [], Some(if closeErr.None? then ClosedPipe else closeErr.value), false;
        }
        if localReadClosed { return [], Some(ClosedPipe), false; }
        return [], Some(EOF), false;
      }
      out := HandOut(size);
      return out, None, false;
    }

    /** The next queued payload becomes the read buffer. */
    method TakeFromQueue()
      requires Valid()
      modifies this`readBuf, this`queue
      ensures Valid() && View() == old(View()) && readBuf == old(Front()) && (readBuf == [] ==> queue == [])
    {
      if |readBuf| == 0 && |queue| > 0 {
        assert Flatten(queue) == queue[0] + Flatten(queue[1..]);
        readBuf := queue[0];
        queue := queue[1..];
      }
    }

    method HandOut(size: nat) returns (out: Bytes)
      requires Valid() && size > 0 && readBuf != []
      modifies this`readBuf, this`queuedBytes, this`got
      ensures Valid() && |out| == Min(size, |old(readBuf)|) && out <= old(View()).unread
      ensures View() == old(View()).(unread := old(View()).unread[|out|..], got := old(View()).got + out)
    {
      var n := Min(size, |readBuf|);
      out := readBuf[..n];
      assert readBuf + Flatten(queue) == out + (readBuf[n..] + Flatten(queue));
      readBuf := readBuf[n..];
      queuedBytes := queuedBytes - n;
      assert 0 <= queuedBytes;  // so the source's reset of a negative count never fires
      got := got + out;
    }

    /** The reading side shuts; whether the stream then leaves the session's table. */
    method CloseRead() returns (remove: bool)
      requires Valid()
      modifies this
      ensures Valid()
      ensures View() == if old(View()).closed then old(View()) else old(View()).(readClosed := true,
        unread := if old(View()).readClosed then old(View()).unread else [])
      ensures remove == (!old(View()).closed && !old(View()).readClosed && old(View()).writeClosed)
    {
      if closed || localReadClosed { return false; }
      localReadClosed, readBuf, queue, queuedBytes := true, [], [], 0;
      remove := localWriteClosed;
    }
  }

  // ---------------------------------------------------------------------------
  // One session

  /**
   One end of the connection. `streams` has every stream object ever made,
   `registered` the ids in the session's table; `sent` is every frame ever
   written to the connection, `taken` how many of the peer's were demuxed;
   `owed` are the frames reset goroutines still have to send.
   */
  datatype Endpoint = Endpoint(
    server: bool, alive: bool, streams: map<nat, Stream>, registered: set<nat>, nextId: nat,
    sent: seq<Frame>, taken: nat, owed: seq<seq<Frame>>)

  function Send(e: Endpoint, f: Frame): Endpoint {
    if e.alive then e.(sent := e.sent + [f]) else e
  }

  function Owe(e: Endpoint, id: nat): Endpoint {
    e.(owed := e.owed + [[Frame(ResetFrame, id, []), Frame(CloseFrame, id, [])]])
  }

  /** closeWithError: every stream still in the table ends with the session's error. */
  function Fail(e: Endpoint, err: Error): Endpoint {
    if !e.alive then e
    else
      e.(alive := false, registered := {},
         streams := map id | id in e.streams :: if id in e.registered then CloseNoSend(e.streams[id], err) else e.streams[id])
  }

  function Put(e: Endpoint, id: nat, st: Stream): Endpoint {
    e.(streams := e.streams[id := st])
  }

  function Remove(e: Endpoint, id: nat): Endpoint {
    e.(registered := e.registered - {id})
  }

  /** The demux loop's reaction to one frame from the peer. */
  function Demux(e: Endpoint, f: Frame): Endpoint {
    if |f.payload| > MAX_FRAME then Fail(e, ConnFailed)
    else
      var known := f.id in e.registered && f.id in e.streams;
      match f.kind
      case OpenFrame =>
        if !e.server || f.id == 0 || known then Owe(e, f.id)
        else Put(e, f.id, NEW).(registered := e.registered + {f.id})
      case DataFrame =>
        if !known || f.payload == [] then e
        else
          var (st, full) := Enqueue(e.streams[f.id], f.payload);
          if full then Owe(Remove(Put(e, f.id, CloseNoSend(st, QueueFull)), f.id), f.id)
          else Put(e, f.id, st)
      case CloseFrame =>
        if !known then e
        else
          var st := e.streams[f.id];
          if st.closed then e
          else
            var e' := Put(e, f.id, st.(remoteClosed := true));
            if st.writeClosed then Remove(e', f.id) else e'
      case ResetFrame =>
        if !known then e else Remove(Put(e, f.id, CloseNoSend(e.streams[f.id], ResetByPeer)), f.id)
  }

  /** What the application and the session's own goroutines do. */
  datatype Local =
    | OpenStream(payload: Bytes)
    | BeginWrite(id: nat, data: Bytes)
    | EmitChunk(id: nat)
    | Read(id: nat, n: nat)
    | CloseStream(id: nat)
    | CloseWrite(id: nat)
    | CloseRead(id: nat)
    | SendOwed(k: nat)
    | Keepalive
    | FailWith(err: Error)

  /** The stream's write lock: Close and CloseWrite wait for a Write in progress. */
  function Act(e: Endpoint, a: Local): Endpoint {
    match a
    case OpenStream(payload) =>
      if e.server || !e.alive then e
      else
        var id := e.nextId + 1;
        if |payload| > MAX_FRAME then Put(e, id, CloseNoSend(NEW, ConnFailed)).(nextId := id, registered := e.registered - {id})
        else Send(Put(e, id, NEW).(nextId := id, registered := e.registered + {id}), Frame(OpenFrame, id, payload))
    case BeginWrite(id, data) =>
      if id in e.streams && e.alive && e.streams[id].writing == [] && !e.streams[id].closed && !e.streams[id].writeClosed
      then Put(e, id, e.streams[id].(writing := data, wrote := e.streams[id].wrote + data)) else e
    case EmitChunk(id) =>
      if id in e.streams && e.streams[id].writing != [] then
        var st := e.streams[id];
        var n := Min(|st.writing|, MAX_DATA);
        if e.alive then
          Send(Put(e, id, st.(writing := st.writing[n..], counted := st.counted + st.writing[..n])),
               Frame(DataFrame, id, st.writing[..n]))
        else Put(e, id, st.(writing := []))
      else e
    case Read(id, n) =>
      if id in e.streams && 0 < n <= |e.streams[id].unread| then
        var st := e.streams[id];
        Put(e, id, st.(unread := st.unread[n..], got := st.got + st.unread[..n]))
      else e
    case CloseStream(id) =>
      if id in e.streams && e.streams[id].writing == [] && !e.streams[id].closed then
        var st := e.streams[id];
        var e' := Remove(Put(e, id, st.(closed := true, readClosed := true, writeClosed := true, unread := [],
          err := if st.err.None? then Some(ClosedPipe) else st.err)), id);
        if st.writeClosed then e' else Send(e', Frame(CloseFrame, id, []))
      else e
    case CloseWrite(id) =>
      if id in e.streams && e.streams[id].writing == [] && !e.streams[id].closed && !e.streams[id].writeClosed then
        var st := e.streams[id];
        var e' := Send(Put(e, id, st.(writeClosed := true)), Frame(CloseFrame, id, []));
        if st.remoteClosed || st.readClosed then Remove(e', id) else e'
      else e
    case CloseRead(id) =>
      if id in e.streams && !e.streams[id].closed && !e.streams[id].readClosed then
        var st := e.streams[id];
        var e' := Put(e, id, st.(readClosed := true, unread := []));
        if st.writeClosed then Remove(e', id) else e'
      else e
    case SendOwed(k) =>
      if k < |e.owed| && e.owed[k] != [] then Send(e.(owed := e.owed[k := e.owed[k][1..]]), e.owed[k][0]) else e
    case Keepalive => Send(e, Frame(DataFrame, 0, []))
    case FailWith(err) => if err == EOF then e else Fail(e, err)
  }

  /**
   The rest of a Write in progress, when the connection takes `room` more frames
   and then fails: chunk after chunk, and on a dead session nothing more.
   */
  function WriteOut(e: Endpoint, id: nat, room: nat): Endpoint
    requires id in e.streams
    decreases |e.streams[id].writing|
  {
    if e.streams[id].writing == [] then e
    else if e.alive && room > 0 then WriteOut(Act(e, EmitChunk(id)), id, room - 1)
    else Act(Fail(e, ConnFailed), EmitChunk(id))
  }

  /** The session object: its table and counters, changed in place by the demux loop. */
  class Session {
    const acceptsStreams: bool
    var alive: bool
    var streams: map<nat, Stream>
    var registered: set<nat>
    var nextID: nat
    ghost var sent: seq<Frame>
    ghost var taken: nat
    var owed: seq<seq<Frame>>

    ghost function View(): Endpoint
      reads this
    {
      Endpoint(acceptsStreams, alive, streams, registered, nextID, sent, taken, owed)
    }

    constructor (server: bool)
      ensures View() == Endpoint(server, true, map[], {}, 0, [], 0, [])
    {
      acceptsStreams, alive, streams, registered := server, true, map[], {};
      nextID, sent, taken, owed := 0, [], 0, [];
    }

    method CloseWithError(err: Error)
      modifies this
      ensures View() == Fail(old(View()), err)
    {
      if !alive { return; }
      CloseStreams(err);
      registered := {};
      alive := false;
    }

    /** Every stream in the table, in any order. */
    method CloseStreams(err: Error)
      modifies this`streams
      ensures streams
           == map id | id in old(streams) :: if id in registered then CloseNoSend(old(streams)[id], err) else old(streams)[id]
    {
      var ids := registered;
      while ids != {}
        invariant ids <= registered && streams.Keys == old(streams).Keys
        invariant forall id | id in old(streams) ::
          streams[id] == if id in registered && id !in ids then CloseNoSend(old(streams)[id], err) else old(streams)[id]
      {
        var id :| id in ids;
        ids := ids - {id};
        if id in streams { streams := streams[id := CloseNoSend(streams[id], err)]; }
      }
    }

    /** One turn of readLoop. */
    method HandleFrame(f: Frame)
      modifies this
      ensures View() == Demux(old(View()), f).(taken := old(View()).taken + 1)
    {
      taken := taken + 1;
      if |f.payload| > MAX_FRAME {
        CloseWithError(ConnFailed);
        return;
      }
      var known := f.id in registered && f.id in streams;
      match f.kind
      case OpenFrame =>
        if !acceptsStreams || f.id == 0 || known {
          SendReset(f.id);
        } else {
          streams := streams[f.id := NEW];
          registered := registered + {f.id};
        }
      case DataFrame =>
        if !known || |f.payload| == 0 { return; }
        var (st, full) := Enqueue(streams[f.id], f.payload);
        streams := streams[f.id := if full then CloseNoSend(st, QueueFull) else st];
        if full {
          registered := registered - {f.id};
          SendReset(f.id);
        }
      case CloseFrame =>
        if !known || streams[f.id].closed { return; }
        var remove := streams[f.id].writeClosed;
        streams := streams[f.id := streams[f.id].(remoteClosed := true)];
        if remove { registered := registered - {f.id}; }
      case ResetFrame =>
        if !known { return; }
        streams := streams[f.id := CloseNoSend(streams[f.id], ResetByPeer)];
        registered := registered - {f.id};
    }

    /** sendFrame, on a connection that is up or fails in this write. */
    method SendFrame(f: Frame, up: bool) returns (ok: bool)
      modifies this
      ensures ok == (old(alive) && |f.payload| <= MAX_FRAME && up)
      ensures View() == if ok then Send(old(View()), f)
                        else if |f.payload| <= MAX_FRAME then Fail(old(View()), ConnFailed) else old(View())
    {
      if !alive { return false; }
      if |f.payload| > MAX_FRAME { return false; }
      if !up {
        CloseWithError(ConnFailed);
        return false;
      }
      sent := sent + [f];
      ok := true;
    }

    /** stream.Write: `room` is how many more frames the connection takes. */
    method Write(id: nat, data: Bytes, room: nat) returns (n: nat, ok: bool)
      requires id in streams && streams[id].writing == []
      modifies this
      ensures id in streams && View() == WriteOut(Act(old(View()), BeginWrite(id, data)), id, room)
      ensures n <= |data| && streams[id].counted == old(streams[id]).counted + data[..n] && (ok ==> n == |data|)
    {
      n, ok := 0, false;
      SameCount(streams[id].counted, data);
      if |data| == 0 {
        assert streams[id].wrote + data == streams[id].wrote && streams[id := streams[id]] == streams;
        return 0, true;
      }
      if !alive || streams[id].closed || streams[id].writeClosed { return; }
      streams := streams[id := streams[id].(writing := data, wrote := streams[id].wrote + data)];
      assert data[n..] == data;
      var left := room;
      while n < |data|
        invariant n <= |data| && alive && id in streams && streams[id].writing == data[n..]
        invariant streams[id].counted == old(streams[id]).counted + data[..n]
        invariant WriteOut(View(), id, left) == WriteOut(Act(old(View()), BeginWrite(id, data)), id, room)
      {
        var k := Min(|data| - n, MAX_DATA);
        CutChunk(old(streams[id]).counted, data, n, k);
        ok := SendChunk(id, data[n..n + k], left > 0);
        if !ok { return; }
        n, left := n + k, left - 1;
      }
      ok := true;
    }

    /** One round of Write's loop: the chunk counts only if it was sent. */
    method SendChunk(id: nat, chunk: Bytes, up: bool) returns (ok: bool)
      requires alive && id in streams && streams[id].writing != []
      requires chunk == streams[id].writing[..Min(|streams[id].writing|, MAX_DATA)]
      modifies this
      ensures ok == up && id in streams
      ensures up ==> View() == Act(old(View()), EmitChunk(id)) && alive
      ensures up ==> streams[id].counted == old(streams[id]).counted + chunk
      ensures up ==> streams[id].writing == old(streams[id]).writing[|chunk|..]
      ensures !up ==> View() == Act(Fail(old(View()), ConnFailed), EmitChunk(id)) && streams[id].counted == old(streams[id]).counted
    {
      var st := streams[id];
      ok := SendFrame(Frame(DataFrame, id, chunk), up);
      if ok {
        streams := streams[id := st.(writing := st.writing[|chunk|..], counted := st.counted + chunk)];
      } else {
        streams := streams[id := streams[id].(writing := [])];
      }
    }

    /** stream.Close; a failing connection loses the close frame. */
    method CloseStream(id: nat, up: bool)
      requires id in streams && streams[id].writing == []
      modifies this
      ensures up || !old(alive) || old(streams[id]).writeClosed ==> View() == Act(old(View()), Local.CloseStream(id))
      ensures !up && old(alive) && !old(streams[id]).writeClosed && !old(streams[id]).closed ==>
        View() == Fail(Act(old(View()), Local.CloseStream(id)), ConnFailed).(sent := old(sent))
    {
      var st := streams[id];
      if st.closed { return; }
      streams := streams[id := st.(closed := true, readClosed := true, writeClosed := true, unread := [],
                                   err := if st.err.None? then Some(ClosedPipe) else st.err)];
      registered := registered - {id};
      if !st.writeClosed {
        var ok := SendFrame(Frame(CloseFrame, id, []), up);
      }
    }

    /** stream.CloseWrite. */
    method CloseWrite(id: nat, up: bool)
      requires id in streams && streams[id].writing == []
      modifies this
      ensures up || !old(alive) ==> View() == Act(old(View()), Local.CloseWrite(id))
      ensures !up && old(alive) && !old(streams[id]).writeClosed && !old(streams[id]).closed ==>
        View() == Fail(Put(old(View()), id, old(streams[id]).(writeClosed := true)), ConnFailed)
    {
      var st := streams[id];
      if st.closed || st.writeClosed { return; }
      streams := streams[id := st.(writeClosed := true)];
      var ok := SendFrame(Frame(CloseFrame, id, []), up);
      if st.remoteClosed || st.readClosed { registered := registered - {id}; }
    }

    /** With the next stream in the table, before its open frame has gone out. */
    ghost static function Announced(e: Endpoint): Endpoint {
      Put(e, e.nextId + 1, NEW).(nextId := e.nextId + 1, registered := e.registered + {e.nextId + 1})
    }

    /** OpenStream, on a client session. */
    method OpenStream(payload: Bytes, up: bool) returns (id: nat, ok: bool)
      requires !acceptsStreams
      modifies this
      ensures ok == (old(alive) && |payload| <= MAX_FRAME && up)
      ensures up || !old(alive) ==> View() == Act(old(View()), Local.OpenStream(payload))
      ensures ok ==> id == old(nextID) + 1
      ensures !up && old(alive) && |payload| <= MAX_FRAME ==> View() == Fail(Announced(old(View())), ConnFailed)
    {
      id := 0;
      if !alive { return id, false; }
      nextID := nextID + 1;
      id := nextID;
      streams, registered := streams[id := NEW], registered + {id};
      ok := SendFrame(Frame(OpenFrame, id, payload), up);
      if !ok {
        streams := streams[id := CloseNoSend(streams[id], ConnFailed)];
        registered := registered - {id};
      }
    }

    /** The two frames of a reset, to be sent by a goroutine of their own. */
    method SendReset(id: nat)
      modifies this`owed
      ensures View() == Owe(old(View()), id)
    {
      owed := owed + [[Frame(ResetFrame, id, []), Frame(CloseFrame, id, [])]];
    }
  }

  lemma SameCount(counted: Bytes, data: Bytes)
    ensures counted + data[..0] == counted
  {
  }

  lemma CutChunk(counted: Bytes, data: Bytes, n: nat, k: nat)
    requires n + k <= |data|
    ensures data[n..][..k] == data[n..n + k] && data[n..][k..] == data[n + k..]
    ensures counted + data[..n] + data[n..n + k] == counted + data[..n + k]
  {
    assert data[..n + k] == data[..n] + data[n..n + k];
    ConcatAssoc(counted, data[..n], data[n..n + k]);
  }
}
