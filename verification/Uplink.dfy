/**
 The HTTPMask uplink: numbered upload batches, retried by the client until one
 of the attempts is answered, applied by the server only when the number is the
 next expected one. The network may lose, duplicate, delay and reorder every
 request and every response.
 */
module Uplink {
  import opened Common

  // Client push loop constants and the server's per-request limit.
  const MAX_BATCH := 256 * 1024
  const QUEUE_DEPTH := 64
  const MAX_UPLOAD := 1024 * 1024

  // ---------------------------------------------------------------------------
  // Server session

  datatype Status = Accepted | Forbidden | TooLarge | Conflict | Gone

  /** The uplink half of one tunnel session; `pipe` is everything its pipe ever took. */
  datatype Server = Server(present: bool, next: nat, pipe: Bytes, uplinkClosed: bool)

  /**
   One upload request. The pipe takes at most `room` bytes before its write
   fails; a failed write and the session close that follows are one step.
   */
  function Upload(s: Server, number: nat, payload: Bytes, room: nat): (r: (Server, Status))
    ensures number != s.next ==> r.0 == s
    ensures r.1 == Accepted && number == s.next ==> r.0 == s.(next := s.next + 1, pipe := s.pipe + payload)
  {
    if !s.present then (s, Forbidden)
    else if |payload| > MAX_UPLOAD then (s, TooLarge)
    else if number < s.next then (s, Accepted)
    else if number > s.next then (s, Conflict)
    else if |payload| <= room then (s.(next := s.next + 1, pipe := s.pipe + payload), Accepted)
    else (s.(present := false, pipe := s.pipe + payload[..room]), Gone)
  }

  /** The pipe write of an upload alone, before the handler gets to close the session: the table still has it. */
  function UploadBeforeClose(s: Server, payload: Bytes, room: nat): Server {
    if |payload| <= room then Upload(s, s.next, payload, room).0 else s.(pipe := s.pipe + payload[..room])
  }

  /** The server object that runs the upload path in place. */
  class TunnelSession {
    var present: bool
    var nextUploadSeq: nat
    var uplinkClosed: bool
    var pipe: Bytes

    ghost function View(): Server
      reads this
    {
      Server(present, nextUploadSeq, pipe, uplinkClosed)
    }

    constructor ()
      ensures View() == Server(true, 1, [], false)
    {
      present, nextUploadSeq, uplinkClosed, pipe := true, 1, false, [];
    }

    /** streamPush around writeSessionUpload, with writeFull's partial write on failure. */
    method StreamPush(sequence: nat, payload: Bytes, room: nat) returns (status: Status)
      modifies this
      ensures (View(), status) == Upload(old(View()), sequence, payload, room)
      ensures status == Accepted <==>
        (old(present) && |payload| <= MAX_UPLOAD
         && (sequence < old(nextUploadSeq) || (sequence == old(nextUploadSeq) && |payload| <= room)))
      ensures status == Conflict <==> old(present) && |payload| <= MAX_UPLOAD && sequence > old(nextUploadSeq)
      ensures status == Gone <==> old(present) && !present
      ensures sequence != old(nextUploadSeq) ==> View() == old(View())
    {
      if !present { return Forbidden; }
      if |payload| > MAX_UPLOAD { return TooLarge; }
      if sequence < nextUploadSeq { return Accepted; }
      if sequence > nextUploadSeq { return Conflict; }
      if |payload| > 0 {
        var n := 0;
        while n < |payload| && n < room
          invariant n <= |payload| && n <= room
          invariant pipe == old(pipe) + payload[..n]
          invariant present && nextUploadSeq == old(nextUploadSeq) && uplinkClosed == old(uplinkClosed)
        {
          pipe := pipe + [payload[n]];
          n := n + 1;
        }
        if n < |payload| {
          present := false;
          return Gone;
        }
        assert payload[..n] == payload;
      }
      assert pipe == old(pipe) + payload;
      nextUploadSeq := nextUploadSeq + 1;
      return Accepted;
    }
  }

  // ---------------------------------------------------------------------------
  // Client

  /** Where the push loop is: in its select, in its drain loop, inside flush, sending FIN, or returned. */
  datatype Phase =
    | Idle
    | Draining
    | Flushing(drain: bool, held: Bytes)
    | Finishing
    | Stopped(ok: bool, held: Bytes)

  /** `accepted` is the concatenation of all payloads Write returned nil for, `batches` all payloads ever numbered. */
  datatype Client = Client(
    accepted: Bytes, queue: seq<Bytes>, buf: Bytes, batches: seq<Bytes>,
    phase: Phase, writeClosed: bool, closed: bool)

  /** queuedConn.Write: a non-empty payload is taken unless a side is closed or the channel is full. */
  function Enqueue(c: Client, b: Bytes): Client {
    if b == [] || c.closed || c.writeClosed || |c.queue| >= QUEUE_DEPTH then c
    else c.(accepted := c.accepted + b, queue := c.queue + [b])
  }

  function BeginFlush(c: Client, drain: bool, held: Bytes): Client {
    c.(batches := c.batches + [c.buf], phase := Flushing(drain, held))
  }

  /** The end of the receive branch: a full batch is flushed at once, except while draining. */
  function Settle(c: Client, drain: bool): Client {
    if !drain && |c.buf| >= MAX_BATCH then BeginFlush(c, drain, [])
    else c.(phase := if drain then Draining else Idle)
  }

  /** A payload received from the write queue: flush first when it does not fit the batch. */
  function Absorb(c: Client, b: Bytes, drain: bool): Client {
    if |c.buf| + |b| > MAX_BATCH && c.buf != [] then BeginFlush(c, drain, b)
    else Settle(c.(buf := c.buf + b), drain)
  }

  /** The client object: queuedConn plus the push loop's local batch. */
  class StreamSplitConn {
    ghost var accepted: Bytes
    ghost var batches: seq<Bytes>
    var writeCh: seq<Bytes>
    var buf: Bytes
    var uploadSeq: nat
    var phase: Phase
    var writeClosed: bool
    var closed: bool

    ghost predicate Valid()
      reads this
    {
      && uploadSeq == |batches|
      && (phase.Flushing? ==> uploadSeq > 0 && batches[uploadSeq - 1] == buf)
    }

    ghost function View(): Client
      reads this
    {
      Client(accepted, writeCh, buf, batches, phase, writeClosed, closed)
    }

    constructor ()
      ensures Valid() && View() == Client([], [], [], [], Idle, false, false)
    {
      accepted, batches, writeCh, buf, uploadSeq := [], [], [], [], 0;
      phase, writeClosed, closed := Idle, false, false;
    }

    /** queuedConn.Write; a send on the full channel would block, so it takes nothing. */
    method Write(b: Bytes) returns (n: nat, err: bool)
      requires Valid()
      modifies this
      ensures Valid()
      ensures View() == Enqueue(old(View()), b)
      ensures err <==> b != [] && (old(closed) || old(writeClosed) || |old(writeCh)| >= QUEUE_DEPTH)
      ensures if err then n == 0 && View() == old(View()) else n == |b| && accepted == old(accepted) + b
    {
      if b == [] { return 0, false; }
      if closed || writeClosed || |writeCh| >= QUEUE_DEPTH { return 0, true; }
      accepted := accepted + b;
      writeCh := writeCh + [b];
      return |b|, false;
    }

    /** flush up to the point where the request is built. */
    method StartFlush(drain: bool, held: Bytes) returns (sequence: nat, payload: Bytes)
      requires Valid()
      modifies this
      ensures Valid()
      ensures View() == BeginFlush(old(View()), drain, held)
      ensures sequence == |batches| && payload == batches[sequence - 1]
    {
      uploadSeq := uploadSeq + 1;
      sequence, payload := uploadSeq, buf;
      batches := batches + [buf];
      phase := Flushing(drain, held);
    }

    /** One payload taken from the write queue, in the select loop or in the drain loop. */
    method HandlePayload(drain: bool)
      requires Valid() && writeCh != [] && (phase.Idle? || phase.Draining?)
      modifies this
      ensures Valid()
      ensures View() == Absorb(old(View()).(queue := old(writeCh)[1..]), old(writeCh)[0], drain)
    {
      var b := writeCh[0];
      writeCh := writeCh[1..];
      if |buf| + |b| > MAX_BATCH && buf != [] {
        var _, _ := StartFlush(drain, b);
        return;
      }
      buf := buf + b;
      if !drain && |buf| >= MAX_BATCH {
        var _, _ := StartFlush(drain, []);
      } else {
        phase := if drain then Draining else Idle;
      }
    }

    /** flush returned nil: the batch is reset and the payload that did not fit starts the next one. */
    method FlushAcknowledged()
      requires Valid() && phase.Flushing?
      modifies this
      ensures Valid()
      ensures View() == Settle(old(View()).(buf := old(phase).held), old(phase).drain)
    {
      var drain, held := phase.drain, phase.held;
      buf := held;
      phase := Idle;
      if !drain && |buf| >= MAX_BATCH {
        var _, _ := StartFlush(drain, []);
      } else {
        phase := if drain then Draining else Idle;
      }
    }
  }

  // ---------------------------------------------------------------------------
  // The protocol as steps of both ends and the network

  /**
   Every request ever sent stays deliverable for ever, and every 200 response
   ever produced stays receivable: that covers loss, duplication and delay.
   */
  datatype Network = Network(
    client: Client, server: Server, requests: set<(nat, Bytes)>, acks: set<nat>, fin: bool, gap: bool)

  datatype Action =
    | Write(b: Bytes)
    | CloseWrite
    | Close
    | Take
    | Timer
    | SeeWriteClosed
    | DrainEmpty
    | SeeClosed
    | SendUpload
    | ReceiveAck
    | FlushFail
    | SendFin
    | FinishOk
    | FinishFail
    | DeliverUpload(request: (nat, Bytes), room: nat)
    | DeliverFin(last: bool)
    | ServerDrop

  const INITIAL := Network(Client([], [], [], [], Idle, false, false), Server(true, 1, [], false), {}, {}, false, false)

  /** One step; an action that is not enabled leaves the state as it is. */
  function Apply(n: Network, a: Action): Network {
    if IsClientAction(a) then ApplyClient(n, a) else ApplyServer(n, a)
  }

  predicate IsClientAction(a: Action) {
    !a.DeliverUpload? && !a.DeliverFin? && !a.ServerDrop?
  }

  function ApplyClient(n: Network, a: Action): Network {
    var c := n.client;
    match a
    case Write(b) => n.(client := Enqueue(c, b))
    case CloseWrite => n.(client := c.(writeClosed := true))
    case Close => n.(client := c.(closed := true))
    case Take =>
      if (c.phase.Idle? || c.phase.Draining?) && c.queue != [] then
        n.(client := Absorb(c.(queue := c.queue[1..]), c.queue[0], c.phase.Draining?))
      else n
    case Timer =>
      if c.phase.Idle? && c.buf != [] then n.(client := BeginFlush(c, false, [])) else n
    case SeeWriteClosed =>
      if c.phase.Idle? && c.writeClosed then n.(client := c.(phase := Draining)) else n
    case DrainEmpty =>
      if c.phase.Draining? && c.queue == [] then
        n.(client := if c.buf != [] then BeginFlush(c, true, []) else c.(phase := Finishing))
      else n
    case SeeClosed =>
      if c.phase.Idle? && c.closed then n.(client := c.(phase := Stopped(false, c.buf))) else n
    case SendUpload =>
      if c.phase.Flushing? && c.batches != [] then
        n.(requests := n.requests + {(|c.batches|, c.batches[|c.batches| - 1])})
      else n
    case ReceiveAck =>
      if c.phase.Flushing? && |c.batches| in n.acks then
        n.(client := Settle(c.(buf := c.phase.held), c.phase.drain))
      else n
    case FlushFail =>
      if c.phase.Flushing? then n.(client := c.(phase := Stopped(false, c.phase.held), closed := true)) else n
    case SendFin =>
      if c.phase.Finishing? then n.(fin := true) else n
    case FinishOk =>
      if c.phase.Finishing? then n.(client := c.(phase := Stopped(true, []))) else n
    case FinishFail =>
      if c.phase.Finishing? then n.(client := c.(phase := Stopped(false, []), closed := true)) else n
    case _ => n
  }

  function ApplyServer(n: Network, a: Action): Network {
    match a
    case DeliverUpload(request, room) =>
      if request in n.requests then
        var (server, status) := Upload(n.server, request.0, request.1, room);
        n.(server := server,
           acks := if status == Accepted then n.acks + {request.0} else n.acks,
           gap := n.gap || status == Conflict)
      else n
    case DeliverFin(last) =>
      if n.fin && n.server.present then n.(server := n.server.(uplinkClosed := true, present := !last)) else n
    case ServerDrop => n.(server := n.server.(present := false))
    case _ => n
  }

  /** The state after a whole run. */
  function Exec(actions: seq<Action>): Network {
    if actions == [] then INITIAL
    else Apply(Exec(actions[..|actions| - 1]), actions[|actions| - 1])
  }

  /** What CloseWrite returns nil for: the push loop has returned with no error. */
  predicate CloseWriteReturnsNil(n: Network) {
    n.client.phase.Stopped? && n.client.phase.ok
  }

  /** Accepted bytes that are in no numbered batch yet and no longer in the queue. */
  function Unbatched(c: Client): Bytes {
    match c.phase
    case Flushing(_, held) => held
    case Stopped(_, held) => held
    case _ => c.buf
  }

  /** Nothing of the accepted bytes is waiting for a batch or for an acknowledgement. */
  ghost predicate AllSent(n: Network) {
    && n.client.writeClosed && n.client.queue == [] && Unbatched(n.client) == []
    && n.server.next == |n.client.batches| + 1
  }

  ghost predicate ClientInv(n: Network) {
    var c, s := n.client, n.server;
    && c.accepted == Flatten(c.batches) + Unbatched(c) + Flatten(c.queue)
    && (c.phase.Flushing? ==> c.batches != [])
    && |c.batches| <= s.next <= |c.batches| + 1
    && (c.phase.Idle? || c.phase.Draining? || c.phase.Finishing? ==> s.next == |c.batches| + 1)
    && (c.phase.Draining? || (c.phase.Flushing? && c.phase.drain) ==> c.writeClosed)
    && (c.phase.Finishing? || CloseWriteReturnsNil(n) ==> AllSent(n))
    && (n.fin ==> AllSent(n) && (c.phase.Finishing? || c.phase.Stopped?))
  }

  ghost predicate ServerInv(n: Network) {
    var c, s := n.client, n.server;
    && 1 <= s.next <= |c.batches| + 1
    && (forall r | r in n.requests :: 1 <= r.0 <= |c.batches| && r.1 == c.batches[r.0 - 1])
    && (forall k | k in n.acks :: 1 <= k < s.next)
    && (s.present || s.next == |c.batches| + 1 ==> s.pipe == Flatten(c.batches[..s.next - 1]))
    && (s.next <= |c.batches| ==>
          Flatten(c.batches[..s.next - 1]) <= s.pipe <= Flatten(c.batches[..s.next - 1]) + c.batches[s.next - 1])
    && (s.uplinkClosed ==> n.fin)
    && !n.gap
  }

  ghost predicate Inv(n: Network) {
    ClientInv(n) && ServerInv(n)
  }

  /** Numbering one more batch keeps everything the server side knows about the earlier ones. */
  lemma BatchKeepsServerInv(n: Network, n': Network)
    requires ServerInv(n) && n.server.next == |n.client.batches| + 1
    requires n' == n.(client := n'.client)
    requires |n'.client.batches| == |n.client.batches| + 1 && n.client.batches <= n'.client.batches
    ensures ServerInv(n')
  {
    var k := |n.client.batches|;
    assert n'.client.batches[..k] == n.client.batches == n.client.batches[..k];
  }

  lemma BeginFlushKeepsInv(n: Network, c: Client, drain: bool, held: Bytes)
    requires ServerInv(n) && n.server.next == |n.client.batches| + 1 && !n.fin
    requires c.batches == n.client.batches && (drain ==> c.writeClosed)
    requires c.accepted == Flatten(c.batches) + c.buf + held + Flatten(c.queue)
    ensures Inv(n.(client := BeginFlush(c, drain, held)))
  {
    FlattenSnoc(c.batches, c.buf);
    BatchKeepsServerInv(n, n.(client := BeginFlush(c, drain, held)));
  }

  lemma SettleKeepsInv(n: Network, c: Client, drain: bool)
    requires ServerInv(n) && n.server.next == |n.client.batches| + 1 && !n.fin
    requires c.batches == n.client.batches && (drain ==> c.writeClosed)
    requires c.accepted == Flatten(c.batches) + c.buf + Flatten(c.queue)
    ensures Inv(n.(client := Settle(c, drain)))
  {
    if !drain && |c.buf| >= MAX_BATCH {
      assert Flatten(c.batches) + c.buf + [] + Flatten(c.queue) == c.accepted;
      BeginFlushKeepsInv(n, c, drain, []);
    }
  }

  lemma AbsorbKeepsInv(n: Network)
    requires Inv(n) && n.client.queue != [] && (n.client.phase.Idle? || n.client.phase.Draining?)
    ensures Inv(ApplyClient(n, Take))
  {
    var c := n.client;
    var b, drain := c.queue[0], c.phase.Draining?;
    var c' := c.(queue := c.queue[1..]);
    assert Flatten(c.queue) == b + Flatten(c'.queue);
    assert c.accepted == Flatten(c.batches) + c.buf + b + Flatten(c'.queue);
    if |c'.buf| + |b| > MAX_BATCH && c'.buf != [] {
      BeginFlushKeepsInv(n, c', drain, b);
    } else {
      assert c.accepted == Flatten(c.batches) + (c.buf + b) + Flatten(c'.queue);
      SettleKeepsInv(n, c'.(buf := c'.buf + b), drain);
    }
  }

  lemma WriteKeepsInv(n: Network, b: Bytes)
    requires Inv(n)
    ensures Inv(ApplyClient(n, Write(b)))
  {
    FlattenSnoc(n.client.queue, b);
  }

  lemma ShutKeepsInv(n: Network, a: Action)
    requires Inv(n) && (a.CloseWrite? || a.Close?)
    ensures Inv(ApplyClient(n, a))
  {
  }

  lemma SeeKeepsInv(n: Network, a: Action)
    requires Inv(n) && (a.SeeWriteClosed? || a.SeeClosed?)
    ensures Inv(ApplyClient(n, a))
  {
  }

  /** Steps that touch neither the batches nor the network. */
  lemma LocalStepKeepsInv(n: Network, a: Action)
    requires Inv(n)
    requires a.Write? || a.CloseWrite? || a.Close? || a.SeeWriteClosed? || a.SeeClosed?
    ensures Inv(ApplyClient(n, a))
  {
    match a
    case Write(b) => WriteKeepsInv(n, b);
    case CloseWrite => ShutKeepsInv(n, a);
    case Close => ShutKeepsInv(n, a);
    case SeeWriteClosed => SeeKeepsInv(n, a);
    case SeeClosed => SeeKeepsInv(n, a);
  }

  /** Steps that start a flush. */
  lemma FlushStepKeepsInv(n: Network, a: Action)
    requires Inv(n)
    requires a.Take? || a.Timer? || a.DrainEmpty?
    ensures Inv(ApplyClient(n, a))
  {
    var c := n.client;
    if a.Take? {
      if (c.phase.Idle? || c.phase.Draining?) && c.queue != [] { AbsorbKeepsInv(n); }
    } else if c.buf != [] && ((a.Timer? && c.phase.Idle?) || (a.DrainEmpty? && c.phase.Draining? && c.queue == [])) {
      assert c.accepted == Flatten(c.batches) + c.buf + [] + Flatten(c.queue);
      BeginFlushKeepsInv(n, c, a.DrainEmpty?, []);
    }
  }

  lemma AckKeepsInv(n: Network)
    requires Inv(n)
    ensures Inv(ApplyClient(n, ReceiveAck))
  {
    var c := n.client;
    if c.phase.Flushing? && |c.batches| in n.acks {
      SettleKeepsInv(n, c.(buf := c.phase.held), c.phase.drain);
    }
  }

  lemma UploadKeepsInv(n: Network)
    requires Inv(n)
    ensures Inv(ApplyClient(n, SendUpload))
  {
  }

  lemma FailKeepsInv(n: Network)
    requires Inv(n)
    ensures Inv(ApplyClient(n, FlushFail))
  {
  }

  lemma FinKeepsInv(n: Network)
    requires Inv(n)
    ensures Inv(ApplyClient(n, SendFin))
  {
  }

  lemma FinishKeepsInv(n: Network, a: Action)
    requires Inv(n) && (a.FinishOk? || a.FinishFail?)
    ensures Inv(ApplyClient(n, a))
  {
  }

  /** Steps that send requests, and steps that end a flush or the push loop. */
  lemma NetworkStepKeepsInv(n: Network, a: Action)
    requires Inv(n)
    requires a.SendUpload? || a.ReceiveAck? || a.FlushFail? || a.SendFin? || a.FinishOk? || a.FinishFail?
    ensures Inv(ApplyClient(n, a))
  {
    match a
    case ReceiveAck => AckKeepsInv(n);
    case SendUpload => UploadKeepsInv(n);
    case FlushFail => FailKeepsInv(n);
    case SendFin => FinKeepsInv(n);
    case FinishOk => FinishKeepsInv(n, a);
    case FinishFail => FinishKeepsInv(n, a);
  }

  lemma DeliverKeepsInv(n: Network, request: (nat, Bytes), room: nat)
    requires Inv(n)
    ensures Inv(ApplyServer(n, DeliverUpload(request, room)))
  {
    if request in n.requests && request.0 == n.server.next { DeliverNextKeepsInv(n, request, room); }
  }

  lemma DeliverNextKeepsInv(n: Network, request: (nat, Bytes), room: nat)
    requires Inv(n) && request in n.requests && request.0 == n.server.next
    ensures Inv(ApplyServer(n, DeliverUpload(request, room)))
  {
    var k := n.server.next - 1;
    var batches := n.client.batches;
    assert batches[..k + 1] == batches[..k] + [batches[k]];
    FlattenSnoc(batches[..k], batches[k]);
  }

  lemma DeliverFinKeepsInv(n: Network, last: bool)
    requires Inv(n)
    ensures Inv(ApplyServer(n, DeliverFin(last)))
  {
  }

  lemma DropKeepsInv(n: Network)
    requires Inv(n)
    ensures Inv(ApplyServer(n, ServerDrop))
  {
  }

  lemma ServerStepKeepsInv(n: Network, a: Action)
    requires Inv(n) && !IsClientAction(a)
    ensures Inv(ApplyServer(n, a))
  {
    match a
    case DeliverUpload(request, room) => DeliverKeepsInv(n, request, room);
    case DeliverFin(last) => DeliverFinKeepsInv(n, last);
    case ServerDrop => DropKeepsInv(n);
  }

  lemma {:induction false} ReachableInv(actions: seq<Action>)
    ensures Inv(Exec(actions))
  {
    if actions != [] {
      var before := Exec(actions[..|actions| - 1]);
      var a := actions[|actions| - 1];
      ReachableInv(actions[..|actions| - 1]);
      if !IsClientAction(a) {
        ServerStepKeepsInv(before, a);
      } else if a.Take? || a.Timer? || a.DrainEmpty? {
        FlushStepKeepsInv(before, a);
      } else if a.Write? || a.CloseWrite? || a.Close? || a.SeeWriteClosed? || a.SeeClosed? {
        LocalStepKeepsInv(before, a);
      } else {
        NetworkStepKeepsInv(before, a);
      }
    }
  }

  // ---------------------------------------------------------------------------
  // Main results

  /**
   Exactly once and in order: in every run the pipe holds a prefix of what the
   client accepted; as long as the session lives it holds precisely the applied
   batches, each once; an acknowledged batch is among them; 409 never happens.
   */
  lemma ExactlyOnce(actions: seq<Action>)
    ensures var n := Exec(actions);
      && n.server.pipe <= n.client.accepted
      && 1 <= n.server.next <= |n.client.batches| + 1
      && (n.server.present ==> n.server.pipe == Flatten(n.client.batches[..n.server.next - 1]))
      && (forall k | k in n.acks :: 1 <= k < n.server.next && Flatten(n.client.batches[..k]) <= n.server.pipe)
      && !n.gap
  {
    ReachableInv(actions);
    var n := Exec(actions);
    var batches, next := n.client.batches, n.server.next;
    FlattenSplit(batches, next - 1);
    if next <= |batches| {
      assert batches[next - 1..] == [batches[next - 1]] + batches[next..];
      assert Flatten(batches[next - 1..]) == batches[next - 1] + Flatten(batches[next..]);
    }
    forall k | k in n.acks ensures Flatten(batches[..k]) <= n.server.pipe {
      FlattenSplit(batches[..next - 1], k);
      assert batches[..next - 1][..k] == batches[..k];
    }
  }

  /**
   CloseWrite returns nil only when the whole of the accepted data is in the
   pipe; and the tunnel side sees end of stream on the uplink only then.
   */
  lemma CloseWriteDeliversAll(actions: seq<Action>)
    ensures var n := Exec(actions);
      CloseWriteReturnsNil(n) || n.server.uplinkClosed ==>
        && n.server.pipe == n.client.accepted
        && n.server.next == |n.client.batches| + 1
  {
    ReachableInv(actions);
    var n := Exec(actions);
    assert n.client.batches[..|n.client.batches|] == n.client.batches;
  }

  lemma FinalStep(n: Network, a: Action)
    requires Inv(n) && CloseWriteReturnsNil(n)
    ensures Settled(n, Apply(n, a))
  {
  }

  predicate Settled(n: Network, n': Network) {
    CloseWriteReturnsNil(n') && n'.client.accepted == n.client.accepted && n'.server.pipe == n.server.pipe
  }

  /** After a nil CloseWrite nothing can change any more what was accepted and what the pipe holds. */
  lemma {:induction false} CloseWriteIsFinal(actions: seq<Action>, more: seq<Action>)
    requires CloseWriteReturnsNil(Exec(actions))
    ensures Settled(Exec(actions), Exec(actions + more))
    decreases |more|
  {
    if more == [] {
      assert actions + more == actions;
    } else {
      var init := more[..|more| - 1];
      CloseWriteIsFinal(actions, init);
      assert (actions + more)[..|actions + more| - 1] == actions + init;
      ReachableInv(actions + init);
      FinalStep(Exec(actions + init), more[|more| - 1]);
    }
  }

  /**
   Why the failed write and the close have to be one step: the upload lock is
   free in between, and a retry let in there repeats what the pipe already
   took. The pipe ends up with the batch once if and only if it had taken none of it.
   */
  lemma RetryBeforeClose(s: Server, payload: Bytes, room: nat)
    requires s.present && room < |payload| <= MAX_UPLOAD
    ensures var s' := UploadBeforeClose(UploadBeforeClose(s, payload, room), payload, |payload|);
      && s'.pipe == s.pipe + payload[..room] + payload
      && (s'.pipe == s.pipe + payload <==> room == 0)
  {
    if room == 0 {
      assert s.pipe + payload[..room] + payload == s.pipe + payload;
    } else {
      assert |s.pipe + payload[..room] + payload| > |s.pipe + payload|;
    }
  }
}
