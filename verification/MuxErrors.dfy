/** What Read answers when nothing is left to hand out, over every run: the end of stream, and the error a stream ended with. */
module MuxErrors {
  import opened Common
  import opened Mux
  import opened MuxTheorems

  /** In the session's table: not closed, and not shut in both directions. */
  predicate Open(st: Stream) {
    !st.closed && !(st.writeClosed && (st.readClosed || st.remoteClosed))
  }

  /** The table of a live session holds exactly the open streams. */
  ghost predicate TableOk(y: Endpoint) {
    y.alive ==> forall id :: id in y.registered <==> id in y.streams && Open(y.streams[id])
  }

  lemma ActKeepsTable(y: Endpoint, a: Local)
    requires SenderInv(y) && TableOk(y)
    ensures TableOk(Act(y, a))
  {
    match a
    case OpenStream(_) => assert SenderId(y, y.nextId + 1);
    case CloseStream(_) => CloseKeepsTable(y, a);
    case CloseWrite(_) => CloseKeepsTable(y, a);
    case CloseRead(_) => CloseKeepsTable(y, a);
    case _ =>
  }

  lemma CloseKeepsTable(y: Endpoint, a: Local)
    requires TableOk(y) && (a.CloseStream? || a.CloseWrite? || a.CloseRead?)
    ensures TableOk(Act(y, a))
  {
  }

  lemma DemuxKeepsTable(y: Endpoint, f: Frame)
    requires TableOk(y) && Sensible(y, f) && y.alive
    ensures TableOk(Demux(y, f))
  {
    var y' := Demux(y, f);
    forall id ensures id in y'.registered <==> id in y'.streams && Open(y'.streams[id]) {
      if id != f.id { DemuxElsewhere(y, f, id); }
    }
  }

  lemma TakesSensible(m: System, atServer: bool)
    requires Inv(m) && Near(m, atServer).taken < |Near(m, !atServer).sent|
    ensures Sensible(Near(m, atServer), Near(m, !atServer).sent[Near(m, atServer).taken])
  {
    if atServer { ServerTakesSensible(m); } else { ClientTakesSensible(m); }
  }

  lemma StepKeepsTable(m: System, a: Action, atServer: bool)
    requires Inv(m) && TableOk(Near(m, atServer))
    ensures TableOk(Near(Apply(m, a), atServer))
  {
    var x, y := Near(m, !atServer), Near(m, atServer);
    match a
    case AtClient(l) => if !atServer { ActKeepsTable(y, l); }
    case AtServer(l) => if atServer { ActKeepsTable(y, l); }
    case Receive(byServer) =>
      if byServer == atServer && y.alive && y.taken < |x.sent| {
        TakesSensible(m, atServer);
        DemuxKeepsTable(y, x.sent[y.taken]);
      }
    case ConnectionEof(byServer) =>
  }

  /** Streams leave the table when they end or are shut in both directions, and only then. */
  lemma {:induction false} TableIsOpenStreams(actions: seq<Action>, atServer: bool)
    ensures TableOk(Near(Exec(actions), atServer))
  {
    if actions != [] {
      var m, a := Exec(actions[..|actions| - 1]), actions[|actions| - 1];
      ReachableInv(actions[..|actions| - 1]);
      TableIsOpenStreams(actions[..|actions| - 1], atServer);
      StepKeepsTable(m, a, atServer);
    }
  }

  // ---------------------------------------------------------------------------
  // Answers on a stream that has not ended

  /** The frames the endpoint has taken from its peer. */
  function Taken(m: System, atServer: bool): seq<Frame>
    requires Near(m, atServer).taken <= |Near(m, !atServer).sent|
  {
    Near(m, !atServer).sent[..Near(m, atServer).taken]
  }

  /**
   With nothing unread on a stream that has not ended: after CloseRead a closed
   pipe; otherwise io.EOF if and only if the peer's own half-close has arrived,
   and then all it wrote has been read; otherwise Read waits, having handed out
   all that arrived.
   */
  lemma ReadAnswers(actions: seq<Action>, atServer: bool, id: nat)
    requires id in Near(Exec(actions), atServer).streams
    requires var st := Near(Exec(actions), atServer).streams[id]; st.unread == [] && !st.closed
    ensures var m := Exec(actions);
      Near(m, atServer).taken <= |Near(m, !atServer).sent|
    ensures var m := Exec(actions);
      var st, peer, taken := Near(m, atServer).streams[id], Near(m, !atServer), Taken(m, atServer);
      && ReadError(st) == (if st.readClosed then Some(ClosedPipe) else if CleanClose(taken, id) then Some(EOF) else None)
      && (!st.readClosed ==> st.got == DataOf(taken, id))
      && (!st.readClosed && CleanClose(taken, id) ==> st.got == Wrote(peer, id))
  {
    ReachableInv(actions);
    var m := Exec(actions);
    var x, y := Near(m, !atServer), Near(m, atServer);
    assert ReceiverId(x, y, id);
    var st, taken := y.streams[id], x.sent[..y.taken];
    assert st.got + st.unread == st.got;
    if !st.readClosed && CleanClose(taken, id) {
      EofMeansAllDelivered(actions, [], atServer, id);
      assert actions + [] == actions;
    }
  }

  // ---------------------------------------------------------------------------
  // The error a stream ends with

  function Mine(a: Action, atServer: bool): Option<Local> {
    if a.AtServer? && atServer then Some(a.a) else if a.AtClient? && !atServer then Some(a.a) else None
  }

  /** What a frame for the stream ends it with: a reset, or data that does not fit its backlog any more. */
  function FrameCause(st: Stream, f: Frame): Option<Error> {
    if f.kind.ResetFrame? then Some(ResetByPeer)
    else if f.kind.DataFrame? && !st.readClosed && !st.remoteClosed && |st.unread| + |f.payload| > MAX_QUEUED then Some(QueueFull)
    else None
  }

  /** What the endpoint's own step ends it with: Close, once no Write is in progress, or a failing session. */
  function OwnCause(y: Endpoint, st: Stream, l: Local, id: nat): Option<Error> {
    match l
    case CloseStream(j) => if j == id && st.writing == [] then Some(ClosedPipe) else None
    case FailWith(err) => if err != EOF && y.alive && Open(st) then Some(err) else None
    case _ => None
  }

  /** What a step ends the stream with, if it does. */
  function Cause(x: Endpoint, y: Endpoint, st: Stream, a: Action, atServer: bool, id: nat): Option<Error> {
    if Mine(a, atServer).Some? then OwnCause(y, st, Mine(a, atServer).value, id)
    else if !y.alive || !Open(st) then None
    else
      match a
      case Receive(byServer) =>
        if byServer == atServer && y.taken < |x.sent| && x.sent[y.taken].id == id then FrameCause(st, x.sent[y.taken]) else None
      case ConnectionEof(byServer) => if byServer == atServer && !x.alive && y.taken == |x.sent| then Some(EOF) else None
      case _ => None
  }

  /** What Read will answer once it has handed out what is unread. */
  function LastAnswer(st: Stream): Option<Error> { ReadError(st.(unread := [])) }

  lemma ActEnds(y: Endpoint, l: Local, id: nat)
    requires SenderInv(y) && TableOk(y) && id in y.streams && !y.streams[id].closed && y.streams[id].err.None?
    ensures id in Act(y, l).streams
    ensures var st, st' := y.streams[id], Act(y, l).streams[id];
      var cause := OwnCause(y, st, l, id);
      (st'.closed <==> cause.Some?) && (st'.closed ==> LastAnswer(st') == cause)
  {
    match l
    case OpenStream(_) => assert SenderId(y, y.nextId + 1);
    case CloseStream(_) => CloseEnds(y, l, id);
    case FailWith(err) => if err != EOF { FailEnds(y, err, id); }
    case _ => OthersDoNotEnd(y, l, id);
  }

  lemma CloseEnds(y: Endpoint, l: Local, id: nat)
    requires l.CloseStream? && id in y.streams && !y.streams[id].closed && y.streams[id].err.None?
    ensures id in Act(y, l).streams
    ensures var st, st' := y.streams[id], Act(y, l).streams[id];
      var cause := OwnCause(y, st, l, id);
      (st'.closed <==> cause.Some?) && (st'.closed ==> LastAnswer(st') == cause)
  {
  }

  lemma FailEnds(y: Endpoint, err: Error, id: nat)
    requires TableOk(y) && id in y.streams && !y.streams[id].closed && y.streams[id].err.None?
    ensures id in Fail(y, err).streams
    ensures var st, st' := y.streams[id], Fail(y, err).streams[id];
      (st'.closed <==> y.alive && Open(st)) && (st'.closed ==> LastAnswer(st') == Some(err))
  {
  }

  lemma OthersDoNotEnd(y: Endpoint, l: Local, id: nat)
    requires !l.OpenStream? && !l.CloseStream? && !l.FailWith? && id in y.streams && !y.streams[id].closed
    ensures id in Act(y, l).streams && !Act(y, l).streams[id].closed
  {
  }

  lemma FrameEnds(y: Endpoint, f: Frame, id: nat)
    requires TableOk(y) && y.alive && Sensible(y, f) && id in y.streams && !y.streams[id].closed && y.streams[id].err.None?
    requires |y.streams[id].unread| <= MAX_QUEUED
    ensures id in Demux(y, f).streams
    ensures var st, st' := y.streams[id], Demux(y, f).streams[id];
      var cause := if f.id == id && Open(st) then FrameCause(st, f) else None;
      (st'.closed <==> cause.Some?) && (st'.closed ==> LastAnswer(st') == cause)
  {
    if f.id != id { DemuxElsewhere(y, f, id); } else { FrameEndsThis(y, f); }
  }

  lemma FrameEndsThis(y: Endpoint, f: Frame)
    requires TableOk(y) && y.alive && Sensible(y, f) && f.id in y.streams && !y.streams[f.id].closed && y.streams[f.id].err.None?
    requires |y.streams[f.id].unread| <= MAX_QUEUED
    ensures f.id in Demux(y, f).streams
    ensures var st, st' := y.streams[f.id], Demux(y, f).streams[f.id];
      var cause := if Open(st) then FrameCause(st, f) else None;
      (st'.closed <==> cause.Some?) && (st'.closed ==> LastAnswer(st') == cause)
  {
    assert f.id in y.registered <==> Open(y.streams[f.id]);
  }

  /** A stream ends exactly when there is a cause, and Read then answers that one. */
  lemma EndsWithItsCause(actions: seq<Action>, a: Action, atServer: bool, id: nat)
    requires id in Near(Exec(actions), atServer).streams && !Near(Exec(actions), atServer).streams[id].closed
    ensures id in Near(Exec(actions + [a]), atServer).streams
    ensures var x, y := Near(Exec(actions), !atServer), Near(Exec(actions), atServer);
      var st' := Near(Exec(actions + [a]), atServer).streams[id];
      var cause := Cause(x, y, y.streams[id], a, atServer, id);
      (st'.closed <==> cause.Some?) && (st'.closed ==> LastAnswer(st') == cause)
  {
    ReachableInv(actions);
    TableIsOpenStreams(actions, atServer);
    ExecStep(actions, a);
    var m := Exec(actions);
    var x, y := Near(m, !atServer), Near(m, atServer);
    assert ReceiverId(x, y, id) && SenderId(y, id);
    match a
    case AtClient(l) => if !atServer { ActEnds(y, l, id); }
    case AtServer(l) => if atServer { ActEnds(y, l, id); }
    case Receive(byServer) =>
      if byServer == atServer && y.alive && y.taken < |x.sent| {
        TakesSensible(m, atServer);
        FrameEnds(y, x.sent[y.taken], id);
      }
    case ConnectionEof(byServer) => FailEnds(y, EOF, id);
  }

  /** The stream has ended, what is unread may still be handed out, and nothing else changes. */
  ghost predicate Ended(st: Stream, st': Stream) {
    st.closed && st'.closed && LastAnswer(st') == LastAnswer(st) && st'.got + st'.unread == st.got + st.unread
  }

  lemma ActAfterEnd(y: Endpoint, l: Local, id: nat)
    requires SenderInv(y) && id in y.streams && y.streams[id].closed
    ensures id in Act(y, l).streams && Ended(y.streams[id], Act(y, l).streams[id])
  {
    if l.OpenStream? {
      assert SenderId(y, y.nextId + 1);
    } else if l.Read? {
      ReadAfterEnd(y, l, id);
    } else {
      CloseAfterEnd(y, l, id);
    }
  }

  lemma ReadAfterEnd(y: Endpoint, l: Local, id: nat)
    requires id in y.streams && y.streams[id].closed && l.Read?
    ensures id in Act(y, l).streams && Ended(y.streams[id], Act(y, l).streams[id])
  {
    if l.id == id && 0 < l.n <= |y.streams[id].unread| {
      var st := y.streams[id];
      assert st.unread == st.unread[..l.n] + st.unread[l.n..];
      ConcatAssoc(st.got, st.unread[..l.n], st.unread[l.n..]);
    }
  }

  lemma CloseAfterEnd(y: Endpoint, l: Local, id: nat)
    requires id in y.streams && y.streams[id].closed && !l.OpenStream? && !l.Read?
    ensures id in Act(y, l).streams && Ended(y.streams[id], Act(y, l).streams[id])
  {
  }

  lemma FrameAfterEnd(y: Endpoint, f: Frame, id: nat)
    requires Sensible(y, f) && id in y.streams && y.streams[id].closed
    ensures id in Demux(y, f).streams && Ended(y.streams[id], Demux(y, f).streams[id])
  {
    if f.id != id { DemuxElsewhere(y, f, id); }
  }

  lemma StepAfterEnd(m: System, a: Action, atServer: bool, id: nat)
    requires Inv(m) && id in Near(m, atServer).streams && Near(m, atServer).streams[id].closed
    ensures id in Near(Apply(m, a), atServer).streams
    ensures Ended(Near(m, atServer).streams[id], Near(Apply(m, a), atServer).streams[id])
  {
    var x, y := Near(m, !atServer), Near(m, atServer);
    match a
    case AtClient(l) => if !atServer { ActAfterEnd(y, l, id); }
    case AtServer(l) => if atServer { ActAfterEnd(y, l, id); }
    case Receive(byServer) =>
      if byServer == atServer && y.alive && y.taken < |x.sent| {
        TakesSensible(m, atServer);
        FrameAfterEnd(y, x.sent[y.taken], id);
      }
    case ConnectionEof(byServer) =>
  }

  /** The first cause stays: whatever happens later, Read hands out what is unread and then answers the same. */
  lemma {:induction false} EndIsFinal(actions: seq<Action>, more: seq<Action>, atServer: bool, id: nat)
    requires id in Near(Exec(actions), atServer).streams && Near(Exec(actions), atServer).streams[id].closed
    ensures id in Near(Exec(actions + more), atServer).streams
    ensures Ended(Near(Exec(actions), atServer).streams[id], Near(Exec(actions + more), atServer).streams[id])
    decreases |more|
  {
    if more == [] {
      assert actions + more == actions;
    } else {
      var init, a := more[..|more| - 1], more[|more| - 1];
      EndIsFinal(actions, init, atServer, id);
      ReachableInv(actions + init);
      StepAfterEnd(Exec(actions + init), a, atServer, id);
      assert actions + more == (actions + init) + [a];
      ExecStep(actions + init, a);
    }
  }

  /** A frame longer than the limit ends the session, and every stream in its table, as a failed connection. */
  lemma OversizeFails(actions: seq<Action>, atServer: bool, f: Frame, id: nat)
    requires Near(Exec(actions), atServer).alive && |f.payload| > MAX_FRAME
    ensures var y := Near(Exec(actions), atServer);
      var y' := Demux(y, f);
      && !y'.alive && y'.registered == {}
      && (id in y.registered ==> id in y'.streams && y'.streams[id].closed)
      && (id in y.registered && y.streams[id].err.None? ==> LastAnswer(y'.streams[id]) == Some(ConnFailed))
      && (id in y.streams && id !in y.registered ==> y'.streams[id] == y.streams[id])
  {
    TableIsOpenStreams(actions, atServer);
  }

  // ---------------------------------------------------------------------------
  // What the peer is told

  /** A close frame is sent for a stream that has not ended exactly when its writing side is shut, and for one that was closed. */
  ghost predicate ToldId(y: Endpoint, id: nat) {
    if id !in y.streams then !Has(y.sent, CloseFrame, id)
    else
      var st := y.streams[id];
      && (!st.closed ==> (st.writeClosed <==> Has(y.sent, CloseFrame, id)))
      && (st.closed && st.err == Some(ClosedPipe) ==> Has(y.sent, CloseFrame, id))
  }

  /** Resets are owed for streams that have ended. */
  ghost predicate OwedEnded(y: Endpoint, rest: seq<Frame>) {
    rest != [] ==> forall f <- rest :: f.id in y.streams && y.streams[f.id].closed
  }

  ghost predicate Told(y: Endpoint) {
    y.alive ==> (forall id :: ToldId(y, id)) && forall k | 0 <= k < |y.owed| :: OwedEnded(y, y.owed[k])
  }

  /** An endpoint that may have sent one frame more, and whose stream `f.id` may have changed. */
  ghost predicate SentOne(y: Endpoint, y': Endpoint, f: Frame) {
    && (y'.sent == y.sent || y'.sent == y.sent + [f])
    && (forall id | id != f.id :: (id in y'.streams <==> id in y.streams) && (id in y.streams ==> y'.streams[id] == y.streams[id]))
    && (f.id in y.streams && y.streams[f.id].closed ==> f.id in y'.streams && y'.streams[f.id].closed)
    && y'.owed == y.owed
  }

  lemma SentOneTells(y: Endpoint, y': Endpoint, f: Frame)
    requires y.alive && Told(y) && SentOne(y, y', f) && ToldId(y', f.id)
    ensures Told(y')
  {
    forall id ensures ToldId(y', id) {
      assert ToldId(y, id);
      Snoc(y.sent, f, id);
    }
    forall k | 0 <= k < |y'.owed| ensures OwedEnded(y', y'.owed[k]) { assert OwedEnded(y, y.owed[k]); }
  }

  lemma CloseStreamTells(y: Endpoint, id: nat)
    requires y.alive && Told(y)
    ensures Told(Act(y, CloseStream(id)))
  {
    var f := Frame(CloseFrame, id, []);
    assert ToldId(y, id);
    Snoc(y.sent, f, id);
    SentOneTells(y, Act(y, CloseStream(id)), f);
  }

  lemma CloseSideTells(y: Endpoint, l: Local)
    requires y.alive && Told(y) && (l.CloseWrite? || l.CloseRead?)
    ensures Told(Act(y, l))
  {
    var f := Frame(CloseFrame, l.id, []);
    assert ToldId(y, l.id);
    Snoc(y.sent, f, l.id);
    SentOneTells(y, Act(y, l), f);
  }

  lemma TransferTells(y: Endpoint, l: Local)
    requires y.alive && Told(y) && (l.BeginWrite? || l.EmitChunk? || l.Read? || l.Keepalive?)
    ensures Told(Act(y, l))
  {
    var id := if l.Keepalive? then 0 else l.id;
    var f := if l.EmitChunk? && id in y.streams then Frame(DataFrame, id, y.streams[id].writing[..Min(|y.streams[id].writing|, MAX_DATA)])
             else Frame(DataFrame, id, []);
    assert ToldId(y, id);
    Snoc(y.sent, f, id);
    SentOneTells(y, Act(y, l), f);
  }

  lemma OpenTells(y: Endpoint, payload: Bytes)
    requires y.alive && Told(y) && (y.server || y.nextId + 1 !in y.streams)
    ensures Told(Act(y, OpenStream(payload)))
  {
    var id := y.nextId + 1;
    var f := Frame(OpenFrame, id, payload);
    assert ToldId(y, id);
    Snoc(y.sent, f, id);
    SentOneTells(y, Act(y, OpenStream(payload)), f);
  }

  lemma OwedTells(y: Endpoint, k: nat)
    requires y.alive && Told(y)
    ensures Told(Act(y, SendOwed(k)))
  {
    var y' := Act(y, SendOwed(k));
    if k < |y.owed| && y.owed[k] != [] {
      var f := y.owed[k][0];
      assert OwedEnded(y, y.owed[k]) && f in y.owed[k];
      forall id ensures ToldId(y', id) {
        assert ToldId(y, id);
        Snoc(y.sent, f, id);
      }
      forall j | 0 <= j < |y'.owed| ensures OwedEnded(y', y'.owed[j]) { assert OwedEnded(y, y.owed[j]); }
    }
  }

  lemma ActTells(y: Endpoint, l: Local)
    requires SenderInv(y) && Told(y)
    ensures Told(Act(y, l))
  {
    if y.alive {
      match l
      case OpenStream(payload) =>
        assert SenderId(y, y.nextId + 1);
        OpenTells(y, payload);
      case CloseStream(id) => CloseStreamTells(y, id);
      case CloseWrite(_) => CloseSideTells(y, l);
      case CloseRead(_) => CloseSideTells(y, l);
      case SendOwed(k) => OwedTells(y, k);
      case FailWith(_) =>
      case _ => TransferTells(y, l);
    }
  }

  /** A frame changes one stream, sends nothing, and owes at most a reset for that stream. */
  lemma DemuxTells(y: Endpoint, f: Frame)
    requires y.alive && Told(y) && Sensible(y, f)
    requires f.id in y.streams && !y.streams[f.id].closed ==> y.streams[f.id].err.None?
    ensures Told(Demux(y, f))
  {
    var y' := Demux(y, f);
    forall id ensures ToldId(y', id) {
      assert ToldId(y, id);
      if id != f.id { DemuxElsewhere(y, f, id); } else { DemuxTellsThis(y, f); }
    }
    DemuxOwes(y, f);
    forall k | 0 <= k < |y'.owed| ensures OwedEnded(y', y'.owed[k]) {
      if k < |y.owed| {
        assert OwedEnded(y, y.owed[k]);
        forall g <- y.owed[k] ensures g.id in y'.streams && y'.streams[g.id].closed {
          if g.id != f.id { DemuxElsewhere(y, f, g.id); }
        }
      }
    }
  }

  lemma DemuxTellsThis(y: Endpoint, f: Frame)
    requires y.alive && ToldId(y, f.id) && Sensible(y, f)
    requires f.id in y.streams && !y.streams[f.id].closed ==> y.streams[f.id].err.None?
    ensures ToldId(Demux(y, f), f.id)
  {
  }

  lemma DemuxOwes(y: Endpoint, f: Frame)
    requires y.alive && Sensible(y, f)
    ensures var y' := Demux(y, f);
      && |y.owed| <= |y'.owed| <= |y.owed| + 1 && (forall k | 0 <= k < |y.owed| :: y'.owed[k] == y.owed[k])
      && (|y'.owed| > |y.owed| ==> OwedEnded(y', y'.owed[|y.owed|]))
      && (f.id in y.streams && y.streams[f.id].closed ==> f.id in y'.streams && y'.streams[f.id].closed)
  {
  }

  lemma StepTells(m: System, a: Action, atServer: bool)
    requires Inv(m) && Told(Near(m, atServer))
    ensures Told(Near(Apply(m, a), atServer))
  {
    var x, y := Near(m, !atServer), Near(m, atServer);
    match a
    case AtClient(l) => if !atServer { ActTells(y, l); }
    case AtServer(l) => if atServer { ActTells(y, l); }
    case Receive(byServer) =>
      if byServer == atServer && y.alive && y.taken < |x.sent| {
        var f := x.sent[y.taken];
        TakesSensible(m, atServer);
        assert ReceiverId(x, y, f.id);
        DemuxTells(y, f);
        TakenTells(Demux(y, f), y.taken + 1);
      }
    case ConnectionEof(byServer) =>
  }

  lemma TakenTells(y: Endpoint, taken: nat)
    requires Told(y)
    ensures Told(y.(taken := taken))
  {
    var y' := y.(taken := taken);
    if y.alive {
      forall id ensures ToldId(y', id) { assert ToldId(y, id); }
      forall k | 0 <= k < |y'.owed| ensures OwedEnded(y', y'.owed[k]) { assert OwedEnded(y, y.owed[k]); }
    }
  }

  lemma {:induction false} ReachableTold(actions: seq<Action>, atServer: bool)
    ensures Told(Near(Exec(actions), atServer))
  {
    if actions != [] {
      ReachableInv(actions[..|actions| - 1]);
      ReachableTold(actions[..|actions| - 1], atServer);
      StepTells(Exec(actions[..|actions| - 1]), actions[|actions| - 1], atServer);
    }
  }

  /**
   What the peer hears of the end of a stream: while the session lives, a stream
   that has not ended has its close frame sent if and only if its writing side was
   shut, and a stream that was closed has it sent in any case.
   */
  lemma CloseIsTold(actions: seq<Action>, atServer: bool, id: nat)
    requires Near(Exec(actions), atServer).alive && id in Near(Exec(actions), atServer).streams
    ensures var y := Near(Exec(actions), atServer);
      && (!y.streams[id].closed ==> (y.streams[id].writeClosed <==> Has(y.sent, CloseFrame, id)))
      && (y.streams[id].closed && y.streams[id].err == Some(ClosedPipe) ==> Has(y.sent, CloseFrame, id))
  {
    ReachableTold(actions, atServer);
    assert ToldId(Near(Exec(actions), atServer), id);
  }
}
