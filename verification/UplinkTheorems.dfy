/**
 Liveness of the uplink: which flushes can be acknowledged, that a repeated
 upload is acknowledged again, and that CloseWrite can always complete.
 */
module UplinkTheorems {
  import opened Common
  import opened Uplink

  // ---------------------------------------------------------------------------
  // Runs that continue a run

  function Run(n: Network, more: seq<Action>): Network {
    if more == [] then n else Apply(Run(n, more[..|more| - 1]), more[|more| - 1])
  }

  lemma {:induction false} RunConcat(n: Network, a: seq<Action>, b: seq<Action>)
    ensures Run(n, a + b) == Run(Run(n, a), b)
    decreases |b|
  {
    if b == [] {
      assert a + b == a;
    } else {
      assert (a + b)[..|a + b| - 1] == a + b[..|b| - 1];
      RunConcat(n, a, b[..|b| - 1]);
    }
  }

  lemma {:induction false} ExecIsRun(actions: seq<Action>)
    ensures Exec(actions) == Run(INITIAL, actions)
  {
    if actions != [] { ExecIsRun(actions[..|actions| - 1]); }
  }

  lemma ExecMore(actions: seq<Action>, more: seq<Action>)
    ensures Exec(actions + more) == Run(Exec(actions), more)
  {
    ExecIsRun(actions);
    ExecIsRun(actions + more);
    RunConcat(INITIAL, actions, more);
  }

  lemma RunOne(n: Network, a: Action)
    ensures Run(n, [a]) == Apply(n, a)
  {
    assert [a][..0] == [] && Run(n, []) == n;
  }

  lemma StepKeepsInv(n: Network, a: Action)
    requires Inv(n)
    ensures Inv(Apply(n, a))
  {
    if !IsClientAction(a) {
      ServerStepKeepsInv(n, a);
    } else if a.Take? || a.Timer? || a.DrainEmpty? {
      FlushStepKeepsInv(n, a);
    } else if a.Write? || a.CloseWrite? || a.Close? || a.SeeWriteClosed? || a.SeeClosed? {
      LocalStepKeepsInv(n, a);
    } else {
      NetworkStepKeepsInv(n, a);
    }
  }

  // ---------------------------------------------------------------------------
  // Retries

  /**
   A retry whose first attempt got through is acknowledged again, and nothing
   else happens: the answer to a repeated request is 200 as long as the session lives.
   */
  lemma RetryIsAcknowledged(actions: seq<Action>, request: (nat, Bytes), room: nat)
    requires var n := Exec(actions);
      n.server.present && request in n.requests && request.0 < n.server.next && |request.1| <= MAX_UPLOAD
    ensures var n := Exec(actions);
      Exec(actions + [DeliverUpload(request, room)]) == n.(acks := n.acks + {request.0})
  {
    var a := DeliverUpload(request, room);
    assert (actions + [a])[..|actions|] == actions;
    ReachableInv(actions);
  }

  // ---------------------------------------------------------------------------
  // Which flushes can be acknowledged

  /** The number and the payload of the flush in progress. */
  function Current(c: Client): nat { |c.batches| }

  function Batch(c: Client): Bytes
    requires c.batches != []
  {
    c.batches[|c.batches| - 1]
  }

  /** Batch number k cannot be applied any more, or not at all, and no 200 for it is under way. */
  ghost predicate Lost(n: Network, k: nat) {
    1 <= k <= |n.client.batches| && k !in n.acks && (n.server.present ==> |n.client.batches[k - 1]| > MAX_UPLOAD)
  }

  lemma ClientLeavesLost(n: Network, a: Action, k: nat)
    requires IsClientAction(a) && Lost(n, k)
    ensures Lost(Apply(n, a), k)
  {
    StepNumbers(n, a);
  }

  lemma ServerLeavesLost(n: Network, a: Action, k: nat)
    requires !IsClientAction(a) && Inv(n) && Lost(n, k)
    ensures Lost(Apply(n, a), k)
  {
  }

  lemma LostStays(n: Network, a: Action, k: nat)
    requires Inv(n) && Lost(n, k)
    ensures Lost(Apply(n, a), k)
  {
    if IsClientAction(a) { ClientLeavesLost(n, a, k); } else { ServerLeavesLost(n, a, k); }
  }

  lemma {:induction false} LostForEver(n: Network, more: seq<Action>, k: nat)
    requires Inv(n) && Lost(n, k)
    ensures Inv(Run(n, more)) && Lost(Run(n, more), k)
    decreases |more|
  {
    if more != [] {
      LostForEver(n, more[..|more| - 1], k);
      StepKeepsInv(Run(n, more[..|more| - 1]), more[|more| - 1]);
      LostStays(Run(n, more[..|more| - 1]), more[|more| - 1], k);
    }
  }

  /** The client after its flush was answered: the payload held back starts the next batch, or is one. */
  predicate Flushed(c: Client, c': Client)
    requires c.phase.Flushing?
  {
    && c'.accepted == c.accepted && c'.queue == c.queue && c'.writeClosed == c.writeClosed && c'.closed == c.closed
    && c'.buf == c.phase.held
    && if c.phase.drain then c'.phase == Draining && c'.batches == c.batches
       else if |c.phase.held| >= MAX_BATCH then c'.phase == Flushing(false, []) && c'.batches == c.batches + [c.phase.held]
       else c'.phase == Idle && c'.batches == c.batches
  }

  /** The steps of one flush. */
  predicate OneFlush(more: seq<Action>) {
    |more| == 3 && more[0].SendUpload? && more[1].DeliverUpload? && more[2].ReceiveAck?
  }

  /** With the session there and the batch within the server's limit, one attempt is enough, whatever was lost before. */
  lemma FlushGetsThrough(n: Network) returns (more: seq<Action>)
    requires Inv(n) && n.client.phase.Flushing? && n.server.present && |Batch(n.client)| <= MAX_UPLOAD
    ensures OneFlush(more)
    ensures var n' := Run(n, more);
      && Inv(n') && Current(n.client) in n'.acks && Flushed(n.client, n'.client)
      && n'.server == n.server.(next := Current(n.client) + 1, pipe := Flatten(n.client.batches)) && n'.fin == n.fin
  {
    var k, b := Current(n.client), Batch(n.client);
    var send, deliver := SendUpload, DeliverUpload((k, b), |b|);
    more := [send, deliver, ReceiveAck];
    var n1 := Apply(n, send);
    StepKeepsInv(n, send);
    Delivered(n1, k, b);
    var n2 := Apply(n1, deliver);
    StepKeepsInv(n1, deliver);
    Answered(n2);
    StepKeepsInv(n2, ReceiveAck);
    RunThree(n, send, deliver, ReceiveAck);
  }

  lemma Answered(n: Network)
    requires n.client.phase.Flushing? && Current(n.client) in n.acks
    ensures var n' := Apply(n, ReceiveAck); Flushed(n.client, n'.client) && n' == n.(client := n'.client)
  {
  }

  lemma Delivered(n: Network, k: nat, b: Bytes)
    requires Inv(n) && n.server.present && k == Current(n.client) >= 1 && b == Batch(n.client) && |b| <= MAX_UPLOAD
    requires (k, b) in n.requests && k <= n.server.next
    ensures var n' := Apply(n, DeliverUpload((k, b), |b|));
      n' == n.(acks := n.acks + {k}, server := n.server.(next := k + 1, pipe := Flatten(n.client.batches)))
  {
    if k == n.server.next { LastBatch(n.client.batches); } else { assert n.client.batches[..k] == n.client.batches; }
  }

  lemma LastBatch(batches: seq<Bytes>)
    requires batches != []
    ensures Flatten(batches) == Flatten(batches[..|batches| - 1]) + batches[|batches| - 1]
  {
    FlattenSnoc(batches[..|batches| - 1], batches[|batches| - 1]);
    assert batches == batches[..|batches| - 1] + [batches[|batches| - 1]];
  }

  lemma RunThree(n: Network, a: Action, b: Action, c: Action)
    ensures Run(n, [a, b, c]) == Apply(Apply(Apply(n, a), b), c)
  {
    assert [a] + [b] + [c] == [a, b, c];
    RunOne(n, a);
    RunConcat(n, [a], [b]);
    RunOne(Apply(n, a), b);
    RunConcat(n, [a] + [b], [c]);
    RunOne(Apply(Apply(n, a), b), c);
  }

  /** The batch in flight gets a 200 in some continuation. */
  ghost predicate CanBeAcknowledged(actions: seq<Action>, k: nat) {
    exists more: seq<Action> :: k in Exec(actions + more).acks
  }

  /**
   Exactly when a flush can still be acknowledged: a 200 for it is under way
   already, or the session is there and the batch is within the server's limit.
   */
  lemma AcknowledgedIff(actions: seq<Action>)
    requires Exec(actions).client.phase.Flushing?
    ensures Exec(actions).client.batches != []
    ensures var n := Exec(actions);
      CanBeAcknowledged(actions, Current(n.client))
      <==> Current(n.client) in n.acks || (n.server.present && |Batch(n.client)| <= MAX_UPLOAD)
  {
    ReachableInv(actions);
    var n := Exec(actions);
    var k := Current(n.client);
    if k in n.acks {
      assert actions + [] == actions;
      assert k in Exec(actions + []).acks;
    } else if n.server.present && |Batch(n.client)| <= MAX_UPLOAD {
      var more := FlushGetsThrough(n);
      ExecMore(actions, more);
      assert k in Exec(actions + more).acks;
    } else {
      forall more: seq<Action> ensures k !in Exec(actions + more).acks {
        LostForEver(n, more, k);
        ExecMore(actions, more);
      }
    }
  }

  // ---------------------------------------------------------------------------
  // How large payloads get

  /** No payload waiting in the client is longer than the limit. */
  ghost predicate Fits(c: Client, limit: nat) {
    && (forall i | 0 <= i < |c.queue| :: |c.queue[i]| <= limit)
    && |c.buf| <= limit && (c.phase.Flushing? || c.phase.Stopped? ==> |c.phase.held| <= limit)
  }

  /** The batch in flight is the last one numbered. */
  ghost predicate Aligned(c: Client) {
    c.phase.Flushing? ==> c.batches != [] && Batch(c) == c.buf
  }

  lemma FlushFits(c: Client, drain: bool, held: Bytes, limit: nat)
    requires Fits(c, limit) && |held| <= limit
    ensures Fits(BeginFlush(c, drain, held), limit)
  {
  }

  lemma SettleFits(c: Client, drain: bool, limit: nat)
    requires Fits(c, limit)
    ensures Fits(Settle(c, drain), limit)
  {
    if !drain && |c.buf| >= MAX_BATCH { FlushFits(c, drain, [], limit); }
  }

  lemma AbsorbFits(c: Client, b: Bytes, drain: bool, limit: nat)
    requires Fits(c, limit) && |b| <= limit && limit >= MAX_BATCH
    ensures Fits(Absorb(c, b, drain), limit)
  {
    if |c.buf| + |b| > MAX_BATCH && c.buf != [] {
      FlushFits(c, drain, b, limit);
    } else {
      assert c.buf == [] ==> c.buf + b == b;
      SettleFits(c.(buf := c.buf + b), drain, limit);
    }
  }

  lemma WriteFits(c: Client, b: Bytes, limit: nat)
    requires Fits(c, limit) && |b| <= limit
    ensures Fits(Enqueue(c, b), limit)
  {
  }

  lemma StepFits(n: Network, a: Action, limit: nat)
    requires Fits(n.client, limit) && limit >= MAX_BATCH && (a.Write? ==> |a.b| <= limit)
    ensures Fits(Apply(n, a).client, limit)
  {
    var c := n.client;
    match a
    case Write(b) => WriteFits(c, b, limit);
    case Take => if c.queue != [] { AbsorbFits(c.(queue := c.queue[1..]), c.queue[0], c.phase.Draining?, limit); }
    case Timer => FlushFits(c, false, [], limit);
    case DrainEmpty => FlushFits(c, true, [], limit);
    case ReceiveAck => if c.phase.Flushing? { SettleFits(c.(buf := c.phase.held), c.phase.drain, limit); }
    case _ =>
  }

  /** A step numbers at most one batch, and that is the buffer. */
  ghost predicate Numbers(c: Client, c': Client) {
    (c'.batches == c.batches || c'.batches == c.batches + [c'.buf]) && (Aligned(c) ==> Aligned(c'))
  }

  lemma TakeNumbers(c: Client, b: Bytes, drain: bool)
    requires !c.phase.Flushing?
    ensures Numbers(c, Absorb(c, b, drain))
  {
  }

  lemma SettleNumbers(c: Client, drain: bool)
    ensures Numbers(c.(phase := Idle), Settle(c, drain))
  {
  }

  lemma StepNumbers(n: Network, a: Action)
    ensures Numbers(n.client, Apply(n, a).client)
  {
    var c := n.client;
    if a.Take? && c.queue != [] && !c.phase.Flushing? { TakeNumbers(c.(queue := c.queue[1..]), c.queue[0], c.phase.Draining?); }
    if a.ReceiveAck? && c.phase.Flushing? { SettleNumbers(c.(buf := c.phase.held), c.phase.drain); }
  }

  lemma {:induction false} ReachableAligned(actions: seq<Action>)
    ensures Aligned(Exec(actions).client)
  {
    if actions != [] {
      ReachableAligned(actions[..|actions| - 1]);
      StepNumbers(Exec(actions[..|actions| - 1]), actions[|actions| - 1]);
    }
  }

  /** Writes of at most `limit` bytes: a batch is longer than 256 KiB only when it is a single write. */
  ghost predicate SmallWrites(actions: seq<Action>, limit: nat) {
    forall i | 0 <= i < |actions| :: actions[i].Write? ==> |actions[i].b| <= limit
  }

  lemma {:induction false} BatchesAreSmall(actions: seq<Action>, limit: nat)
    requires limit >= MAX_BATCH && SmallWrites(actions, limit)
    ensures var c := Exec(actions).client;
      Fits(c, limit) && forall i | 0 <= i < |c.batches| :: |c.batches[i]| <= limit
  {
    if actions != [] {
      var n, a := Exec(actions[..|actions| - 1]), actions[|actions| - 1];
      BatchesAreSmall(actions[..|actions| - 1], limit);
      StepFits(n, a, limit);
      StepNumbers(n, a);
    }
  }

  // ---------------------------------------------------------------------------
  // CloseWrite completes

  /** What the push loop still has to do once nothing new is written. */
  function Rank(c: Client): nat {
    match c.phase
    case Flushing(drain, held) => if drain then (if held == [] then 2 else 4) else if held == [] then 6 else 7
    case Idle => 5
    case Draining => if c.buf == [] then 1 else 3
    case _ => 0
  }

  ghost predicate Healthy(n: Network) {
    && Inv(n) && Aligned(n.client) && n.server.present && Fits(n.client, MAX_UPLOAD)
    && !n.client.phase.Stopped?
  }

  /** A later state of the push loop, with less to do. */
  ghost predicate Nearer(n: Network, n': Network) {
    && Healthy(n') && n'.client.accepted == n.client.accepted
    && (|n'.client.queue| < |n.client.queue| || (n'.client.queue == n.client.queue && Rank(n'.client) < Rank(n.client)))
  }

  lemma FlushIsNearer(n: Network) returns (more: seq<Action>)
    requires Healthy(n) && n.client.phase.Flushing?
    ensures Nearer(n, Run(n, more))
  {
    more := FlushGetsThrough(n);
    FlushedFits(n.client, Run(n, more).client);
  }

  lemma FlushedFits(c: Client, c': Client)
    requires c.phase.Flushing? && Flushed(c, c') && Fits(c, MAX_UPLOAD)
    ensures Fits(c', MAX_UPLOAD) && Aligned(c') && Rank(c') < Rank(c)
  {
  }

  /** The loop sees the closed write side. */
  lemma IdleIsNearer(n: Network) returns (more: seq<Action>)
    requires Healthy(n) && n.client.phase.Idle?
    ensures Nearer(n, Run(n, more))
  {
    more := [CloseWrite] + [SeeWriteClosed];
    RunConcat(n, [CloseWrite], [SeeWriteClosed]);
    RunOne(n, CloseWrite);
    RunOne(Apply(n, CloseWrite), SeeWriteClosed);
    StepKeepsInv(n, CloseWrite);
    StepKeepsInv(Apply(n, CloseWrite), SeeWriteClosed);
  }

  lemma DrainingIsNearer(n: Network) returns (more: seq<Action>)
    requires Healthy(n) && n.client.phase.Draining?
    ensures Nearer(n, Run(n, more))
  {
    var a := if n.client.queue != [] then Take else DrainEmpty;
    more := [a];
    RunOne(n, a);
    StepKeepsInv(n, a);
    StepFits(n, a, MAX_UPLOAD);
    StepNumbers(n, a);
  }

  /** One stretch of the push loop, towards the end. */
  lemma Onwards(n: Network) returns (more: seq<Action>)
    requires Healthy(n) && !n.client.phase.Finishing?
    ensures Nearer(n, Run(n, more))
  {
    match n.client.phase
    case Flushing(_, _) => more := FlushIsNearer(n);
    case Idle => more := IdleIsNearer(n);
    case Draining => more := DrainingIsNearer(n);
  }

  /** Everything accepted is in the pipe, the uplink has ended, and CloseWrite has returned nil. */
  ghost predicate Completed(n: Network, accepted: Bytes) {
    CloseWriteReturnsNil(n) && n.server.uplinkClosed && n.client.accepted == accepted == n.server.pipe
  }

  lemma {:induction false} CanComplete(n: Network) returns (more: seq<Action>)
    requires Healthy(n)
    ensures Completed(Run(n, more), n.client.accepted)
    decreases |n.client.queue|, Rank(n.client)
  {
    if n.client.phase.Finishing? {
      more := [SendFin, DeliverFin(true), FinishOk];
      RunThree(n, SendFin, DeliverFin(true), FinishOk);
      assert n.client.batches[..|n.client.batches|] == n.client.batches;
      assert n.client.accepted == Flatten(n.client.batches) + [] + [];
    } else {
      var first := Onwards(n);
      var rest := CanComplete(Run(n, first));
      more := first + rest;
      RunConcat(n, first, rest);
    }
  }

  /** Only batches within the server's limit are acknowledged. */
  ghost predicate AcksFit(n: Network) {
    forall k | k in n.acks :: 1 <= k <= |n.client.batches| && |n.client.batches[k - 1]| <= MAX_UPLOAD
  }

  lemma StepKeepsAcksFit(n: Network, a: Action)
    requires Inv(n) && AcksFit(n)
    ensures AcksFit(Apply(n, a))
  {
    StepNumbers(n, a);
  }

  lemma {:induction false} ReachableAcksFit(actions: seq<Action>)
    ensures Inv(Exec(actions)) && AcksFit(Exec(actions))
  {
    ReachableInv(actions);
    if actions != [] {
      ReachableAcksFit(actions[..|actions| - 1]);
      StepKeepsAcksFit(Exec(actions[..|actions| - 1]), actions[|actions| - 1]);
    }
  }

  /** A payload that is too long stays in the client, in the queue, in the buffer or held back. */
  lemma TooLongInQueue(c: Client, c': Client, i: nat)
    requires i < |c.queue| && |c.queue[i]| > MAX_UPLOAD && c.queue <= c'.queue
    ensures !Fits(c', MAX_UPLOAD)
  {
    assert c'.queue[i] == c.queue[i];
  }

  lemma TakeStaysTooLong(c: Client, drain: bool)
    requires c.queue != [] && (c.phase.Idle? || c.phase.Draining?) && !Fits(c, MAX_UPLOAD)
    ensures !Fits(Absorb(c.(queue := c.queue[1..]), c.queue[0], drain), MAX_UPLOAD)
  {
    var c' := Absorb(c.(queue := c.queue[1..]), c.queue[0], drain);
    if i :| 0 <= i < |c.queue| && |c.queue[i]| > MAX_UPLOAD && i > 0 {
      assert c'.queue[i - 1] == c.queue[i];
    }
  }

  lemma AckStaysTooLong(c: Client)
    requires c.phase.Flushing? && |c.buf| <= MAX_UPLOAD && !Fits(c, MAX_UPLOAD)
    ensures !Fits(Settle(c.(buf := c.phase.held), c.phase.drain), MAX_UPLOAD)
  {
    var c' := Settle(c.(buf := c.phase.held), c.phase.drain);
    assert c'.buf == c.phase.held && c'.queue == c.queue;
  }

  lemma StaysTooLong(n: Network, a: Action)
    requires Inv(n) && Aligned(n.client) && AcksFit(n) && !Fits(n.client, MAX_UPLOAD)
    ensures !Fits(Apply(n, a).client, MAX_UPLOAD)
  {
    var c, c' := n.client, Apply(n, a).client;
    match a
    case Take => if c.queue != [] && (c.phase.Idle? || c.phase.Draining?) { TakeStaysTooLong(c, c.phase.Draining?); }
    case ReceiveAck => if c.phase.Flushing? && |c.batches| in n.acks { AckStaysTooLong(c); }
    case _ => OthersStayTooLong(n, a);
  }

  lemma OthersStayTooLong(n: Network, a: Action)
    requires !a.Take? && !a.ReceiveAck? && Inv(n) && !Fits(n.client, MAX_UPLOAD)
    ensures !Fits(Apply(n, a).client, MAX_UPLOAD)
  {
    var c, c' := n.client, Apply(n, a).client;
    assert c.queue <= c'.queue && c'.buf == c.buf;
    if i :| 0 <= i < |c.queue| && |c.queue[i]| > MAX_UPLOAD { TooLongInQueue(c, c', i); }
  }

  /** The uplink has not ended and never will. */
  ghost predicate Endless(n: Network) {
    && Inv(n) && Aligned(n.client) && AcksFit(n) && !n.server.uplinkClosed
    && (n.server.present ==> !n.fin && !Fits(n.client, MAX_UPLOAD))
  }

  lemma EndlessStays(n: Network, a: Action)
    requires Endless(n)
    ensures Endless(Apply(n, a))
  {
    StepKeepsInv(n, a);
    StepNumbers(n, a);
    StepKeepsAcksFit(n, a);
    if n.server.present { StaysTooLong(n, a); }
  }

  lemma {:induction false} EndlessForEver(n: Network, more: seq<Action>)
    requires Endless(n)
    ensures Endless(Run(n, more))
  {
    if more != [] {
      EndlessForEver(n, more[..|more| - 1]);
      EndlessStays(Run(n, more[..|more| - 1]), more[|more| - 1]);
    }
  }

  ghost predicate CanClose(actions: seq<Action>) {
    exists more: seq<Action> :: var n := Exec(actions + more); CloseWriteReturnsNil(n) && n.server.uplinkClosed
  }

  ghost predicate CanDeliverAll(actions: seq<Action>) {
    exists more: seq<Action> :: Completed(Exec(actions + more), Exec(actions).client.accepted)
  }

  /**
   From any reachable state in which the push loop runs: exactly when CloseWrite can
   still return nil with the uplink ended. The FIN was delivered already, or the
   session is there and no payload waiting in the client is longer than the server
   takes; then it can end with all that was accepted in the pipe.
   */
  lemma CloseWriteCanCompleteIff(actions: seq<Action>)
    requires !Exec(actions).client.phase.Stopped?
    ensures var n := Exec(actions);
      && (CanClose(actions) <==> n.server.uplinkClosed || (n.server.present && Fits(n.client, MAX_UPLOAD)))
      && (n.server.present && Fits(n.client, MAX_UPLOAD) ==> CanDeliverAll(actions))
  {
    ReachableAcksFit(actions);
    ReachableAligned(actions);
    var n := Exec(actions);
    if n.server.present && Fits(n.client, MAX_UPLOAD) {
      var more := CanComplete(n);
      ExecMore(actions, more);
      assert Completed(Exec(actions + more), n.client.accepted);
    } else if n.server.uplinkClosed {
      ExecMore(actions, [FinishOk]);
      RunOne(n, FinishOk);
      assert CloseWriteReturnsNil(Exec(actions + [FinishOk])) && Exec(actions + [FinishOk]).server.uplinkClosed;
    } else {
      assert Endless(n);
      forall more: seq<Action> ensures !Exec(actions + more).server.uplinkClosed {
        ExecMore(actions, more);
        EndlessForEver(n, more);
      }
    }
  }

  // ---------------------------------------------------------------------------
  // How the push loop ends

  /** The step that ends the push loop: well when the FIN is answered, badly when a flush or the FIN fails or the close is seen. */
  function LoopEnds(n: Network, a: Action): Option<bool> {
    match a
    case FinishOk => if n.client.phase.Finishing? then Some(true) else None
    case SeeClosed => if n.client.phase.Idle? && n.client.closed then Some(false) else None
    case _ => if Fails(n, a) then Some(false) else None
  }

  predicate Fails(n: Network, a: Action) {
    (a.FlushFail? && n.client.phase.Flushing?) || (a.FinishFail? && n.client.phase.Finishing?)
  }

  ghost predicate LoopEnded(actions: seq<Action>, ok: bool) {
    actions != [] &&
    (LoopEnded(actions[..|actions| - 1], ok) || LoopEnds(Exec(actions[..|actions| - 1]), actions[|actions| - 1]) == Some(ok))
  }

  ghost predicate LoopFailed(actions: seq<Action>) {
    actions != [] &&
    (LoopFailed(actions[..|actions| - 1]) || Fails(Exec(actions[..|actions| - 1]), actions[|actions| - 1]))
  }

  predicate StoppedWith(c: Client, ok: bool) { c.phase.Stopped? && c.phase.ok == ok }

  lemma FlushNeverStops(c: Client, b: Bytes, drain: bool)
    ensures !Absorb(c, b, drain).phase.Stopped? && !Settle(c, drain).phase.Stopped? && !BeginFlush(c, drain, b).phase.Stopped?
    ensures Absorb(c, b, drain).closed == c.closed && Settle(c, drain).closed == c.closed && BeginFlush(c, drain, b).closed == c.closed
    ensures Absorb(c, b, drain).writeClosed == c.writeClosed && Settle(c, drain).writeClosed == c.writeClosed
    ensures BeginFlush(c, drain, b).writeClosed == c.writeClosed
  {
  }

  /** How the step a changed what tells whether, and how, the loop has ended. */
  ghost predicate EndsBy(n: Network, a: Action, c': Client) {
    var c := n.client;
    && (StoppedWith(c', true) <==> StoppedWith(c, true) || LoopEnds(n, a) == Some(true))
    && (StoppedWith(c', false) <==> StoppedWith(c, false) || LoopEnds(n, a) == Some(false))
    && (c'.closed <==> c.closed || a == Close || Fails(n, a))
    && (c'.writeClosed <==> c.writeClosed || a == CloseWrite)
  }

  lemma FlushStepEnds(n: Network, a: Action)
    requires a.Take? || a.Timer? || a.DrainEmpty? || a.ReceiveAck?
    ensures EndsBy(n, a, Apply(n, a).client)
  {
    if a.Take? && n.client.queue != [] {
      FlushNeverStops(n.client.(queue := n.client.queue[1..]), n.client.queue[0], n.client.phase.Draining?);
    }
  }

  lemma CallEnds(n: Network, a: Action)
    requires a.Write? || a.CloseWrite? || a.Close? || a.SeeWriteClosed? || !IsClientAction(a)
    ensures EndsBy(n, a, Apply(n, a).client)
  {
  }

  lemma EndStep(n: Network, a: Action)
    ensures EndsBy(n, a, Apply(n, a).client)
  {
    if a.Take? || a.Timer? || a.DrainEmpty? || a.ReceiveAck? {
      FlushStepEnds(n, a);
    } else if a.Write? || a.CloseWrite? || a.Close? || a.SeeWriteClosed? || !IsClientAction(a) {
      CallEnds(n, a);
    }
  }

  ghost predicate LoopIs(n: Network, good: bool, bad: bool, closed: bool, shut: bool) {
    && CloseWriteReturnsNil(n) == good && StoppedWith(n.client, false) == bad
    && n.client.closed == closed && n.client.writeClosed == shut
  }

  lemma LoopStep(n: Network, a: Action, good: bool, bad: bool, closed: bool, shut: bool)
    requires LoopIs(n, good, bad, closed, shut)
    ensures LoopIs(Apply(n, a), good || LoopEnds(n, a) == Some(true), bad || LoopEnds(n, a) == Some(false),
                   closed || a == Close || Fails(n, a), shut || a == CloseWrite)
  {
    EndStep(n, a);
  }

  lemma {:induction false} LoopRun(actions: seq<Action>)
    ensures LoopIs(Exec(actions), LoopEnded(actions, true), LoopEnded(actions, false),
                   Close in actions || LoopFailed(actions), CloseWrite in actions)
  {
    if actions != [] {
      var init, last := actions[..|actions| - 1], actions[|actions| - 1];
      LoopRun(init);
      LoopStep(Exec(init), last, LoopEnded(init, true), LoopEnded(init, false),
               Close in init || LoopFailed(init), CloseWrite in init);
      assert actions == init + [last];
    }
  }

  /**
   CloseWrite returns nil exactly if the FIN behind the last flush was answered, the
   push loop ends with an error exactly if a flush or the FIN failed or the close was
   seen, and the connection is closed exactly by Close and by such a failure.
   */
  lemma LoopEndsIff(actions: seq<Action>)
    ensures var n := Exec(actions);
      && (CloseWriteReturnsNil(n) <==> LoopEnded(actions, true))
      && (StoppedWith(n.client, false) <==> LoopEnded(actions, false))
      && (n.client.closed <==> Close in actions || LoopFailed(actions))
      && (n.client.writeClosed <==> CloseWrite in actions)
  {
    LoopRun(actions);
  }

  lemma ShutStep(n: Network, a: Action)
    requires n.client.closed || n.client.writeClosed
    ensures var c := Apply(n, a).client; (c.closed || c.writeClosed) && c.accepted == n.client.accepted
  {
  }

  lemma {:induction false} ShutRun(n: Network, more: seq<Action>)
    requires n.client.closed || n.client.writeClosed
    ensures var c := Run(n, more).client; (c.closed || c.writeClosed) && c.accepted == n.client.accepted
  {
    if more != [] {
      ShutRun(n, more[..|more| - 1]);
      ShutStep(Run(n, more[..|more| - 1]), more[|more| - 1]);
    }
  }

  /** Behind a Close or a CloseWrite, no Write takes anything. */
  lemma ShutTakesNothing(actions: seq<Action>, more: seq<Action>)
    requires Close in actions || CloseWrite in actions
    ensures Exec(actions + more).client.accepted == Exec(actions).client.accepted
  {
    LoopEndsIff(actions);
    ExecMore(actions, more);
    ShutRun(Exec(actions), more);
  }
}
