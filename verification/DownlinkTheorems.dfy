/** Liveness of the downlink: the session can always hand over everything and end its stream. */
module DownlinkTheorems {
  import opened Common
  import opened Downlink

  lemma StepKeepsInv(s: Session, a: Action)
    requires Inv(s)
    ensures Inv(Apply(s, a))
  {
    if a.Step? {
      if a.i < |s.pulls| { LocalKeepsInv(s, a.i); }
    } else if a.HeaderDone? || a.ReadDone? || a.SendDone? {
      ReplyKeepsInv(s, a);
    } else {
      EnvironmentKeepsInv(s, a);
    }
  }

  lemma {:induction false} ApplyAllConcat(s: Session, a: seq<Action>, b: seq<Action>)
    ensures ApplyAll(s, a + b) == ApplyAll(ApplyAll(s, a), b)
    decreases |a|
  {
    if a == [] {
      assert a + b == b;
    } else {
      assert (a + b)[0] == a[0] && (a + b)[1..] == a[1..] + b;
      ApplyAllConcat(Apply(s, a[0]), a[1..], b);
    }
  }

  lemma ApplyOne(s: Session, a: Action)
    ensures ApplyAll(s, [a]) == Apply(s, a)
  {
    assert [a][1..] == [];
  }

  lemma {:induction false} ExecMore(actions: seq<Action>, more: seq<Action>)
    ensures Exec(actions + more) == ApplyAll(Exec(actions), more)
    decreases |more|
  {
    if more == [] {
      assert actions + more == actions;
    } else {
      var init, a := more[..|more| - 1], more[|more| - 1];
      assert (actions + more)[..|actions + more| - 1] == actions + init && more == init + [a];
      ExecMore(actions, init);
      ApplyAllConcat(Exec(actions), init, [a]);
      ApplyOne(Exec(actions + init), a);
    }
  }

  // ---------------------------------------------------------------------------
  // The holder of the lease can give up

  /** The pipe failed, and the handler is about to close the session for that. */
  predicate Doomed(s: Session) {
    s.lease.Some? && s.lease.value < |s.pulls| &&
    (s.pulls[s.lease.value].pc == After(Broken) || s.pulls[s.lease.value].pc == Storing([], Broken))
  }

  /** What makes the handler stop soon: a failing response, or a pipe that has nothing for it. */
  function Leave(s: Session, i: nat): Action
    requires i < |s.pulls|
  {
    match s.pulls[i].pc
    case Header => HeaderDone(i, false)
    case Reading => ReadDone(i, 0, Deadline)
    case Sending(_, _) => SendDone(i, false)
    case _ => Step(i)
  }

  function LeaveRank(pc: Pc): nat {
    match pc
    case Ending(_) => 1
    case Header => 2
    case Sending(_, _) => 2
    case After(err) => if err == NoError then 6 else 2
    case Storing(buf, err) => if buf == [] && err == NoError then 7 else 3
    case Reading => 4
    case Top => 5
    case _ => 0
  }

  /** The session lives on with the same bytes. */
  ghost predicate Alike(s: Session, t: Session) {
    Inv(t) && t.finished == s.finished && t.produced == s.produced && |t.pulls| == |s.pulls|
  }

  /** The end-of-stream answer has been given. */
  predicate EndedBy(s: Session, i: nat) { i < |s.pulls| && s.pulls[i].pc == Ended(true) }

  /** From s to t: one step nearer to giving back the lease, or to having given the end-of-stream answer. */
  ghost predicate LeavesTo(s: Session, t: Session, i: nat)
    requires i < |s.pulls|
  {
    && Alike(s, t) && LeaveRank(t.pulls[i].pc) < LeaveRank(s.pulls[i].pc)
    && (if t.pulls[i].pc.Ended? then t.lease == None && (t.present || EndedBy(t, i))
        else t.lease == Some(i) && !Doomed(t) && (t.present || t.pulls[i].pc == Ending(true)))
  }

  ghost predicate Leaving(s: Session, i: nat) {
    && Inv(s) && s.lease == Some(i) && i < |s.pulls| && !Doomed(s)
    && (s.present || s.pulls[i].pc == Ending(true))
  }

  lemma LeaveByReply(s: Session, i: nat)
    requires Leaving(s, i) && (s.pulls[i].pc.Header? || s.pulls[i].pc.Reading? || s.pulls[i].pc.Sending?)
    ensures LeavesTo(s, Apply(s, Leave(s, i)), i)
  {
    StepKeepsInv(s, Leave(s, i));
  }

  lemma LeaveByStep(s: Session, i: nat)
    requires Leaving(s, i) && (s.pulls[i].pc.Top? || s.pulls[i].pc.Storing?)
    ensures LeavesTo(s, Apply(s, Leave(s, i)), i)
  {
    StepKeepsInv(s, Leave(s, i));
  }

  lemma LeaveAtEnd(s: Session, i: nat)
    requires Leaving(s, i) && (s.pulls[i].pc.After? || s.pulls[i].pc.Ending?)
    ensures LeavesTo(s, Apply(s, Leave(s, i)), i)
  {
    StepKeepsInv(s, Leave(s, i));
  }

  lemma LeaveGoesOn(s: Session, i: nat)
    requires Leaving(s, i)
    ensures LeavesTo(s, Apply(s, Leave(s, i)), i)
  {
    assert Active(s.pulls[i].pc);
    match s.pulls[i].pc
    case Top => LeaveByStep(s, i);
    case Storing(_, _) => LeaveByStep(s, i);
    case After(_) => LeaveAtEnd(s, i);
    case Ending(_) => LeaveAtEnd(s, i);
    case _ => LeaveByReply(s, i);
  }

  /** The lease becomes free, unless its holder is just ending the stream. */
  lemma {:induction false} LeaseFreed(s: Session, i: nat) returns (more: seq<Action>)
    requires Leaving(s, i)
    ensures var t := ApplyAll(s, more); Alike(s, t) && (EndedBy(t, i) || (t.lease == None && t.present))
    decreases LeaveRank(s.pulls[i].pc)
  {
    var a := Leave(s, i);
    var t := Apply(s, a);
    LeaveGoesOn(s, i);
    if t.pulls[i].pc.Ended? {
      more := [a];
      ApplyOne(s, a);
    } else {
      var rest := LeaseFreed(t, i);
      more := [a] + rest;
      ThenMore(s, a, rest);
    }
  }

  // ---------------------------------------------------------------------------
  // A handler that serves to the end

  /** What a handler does when all goes well and the tunnel has nothing to add. */
  function Serve(s: Session, i: nat): Action
    requires i < |s.pulls|
  {
    match s.pulls[i].pc
    case Header => HeaderDone(i, true)
    case Reading =>
      var left := |s.produced| - s.read;
      if left > 0 then ReadDone(i, Min(PULL_BUFFER, left), NoError) else ReadDone(i, 0, Eof)
    case Sending(_, _) => SendDone(i, true)
    case _ => Step(i)
  }

  predicate Going(pc: Pc) {
    match pc
    case Storing(buf, err) => err == if buf == [] then Eof else NoError
    case Sending(_, err) => err == NoError
    case After(err) => err == NoError || err == Eof
    case Ending(eof) => eof
    case Ended(eof) => eof
    case Waiting(_) => false
    case _ => true
  }

  ghost predicate Serving(s: Session, i: nat) {
    && Inv(s) && i < |s.pulls| && s.finished && Going(s.pulls[i].pc)
    && (s.pulls[i].pc.Ended? || (s.lease == Some(i) && !s.pulls[i].cancelled))
    && (s.present || s.pulls[i].pc == Ending(true) || s.pulls[i].pc == Ended(true))
    && (s.pulls[i].pc.After? ==> s.pending == [])
  }

  function ServeRank(s: Session, i: nat): nat
    requires i < |s.pulls|
  {
    match s.pulls[i].pc
    case Ended(_) => 0
    case Ending(_) => 1
    case Reading => 4
    case Top => if s.pending == [] then 5 else 8
    case Sending(_, _) => 7
    case Storing(buf, _) => if buf == [] then 3 else 8
    case After(err) => if err == Eof then 2 else 6
    case Header => 9
    case Waiting(_) => 10
  }

  ghost predicate ServesTo(s: Session, t: Session, i: nat)
    requires i < |s.pulls|
  {
    && Serving(t, i) && Alike(s, t) && s.read <= t.read
    && (s.read < t.read || ServeRank(t, i) < ServeRank(s, i))
  }

  lemma ServeByReply(s: Session, i: nat)
    requires Serving(s, i) && (s.pulls[i].pc.Header? || s.pulls[i].pc.Sending?)
    ensures ServesTo(s, Apply(s, Serve(s, i)), i)
  {
    StepKeepsInv(s, Serve(s, i));
  }

  lemma ServeByReading(s: Session, i: nat)
    requires Serving(s, i) && s.pulls[i].pc.Reading?
    ensures ServesTo(s, Apply(s, Serve(s, i)), i)
  {
    StepKeepsInv(s, Serve(s, i));
  }

  lemma ServeByStep(s: Session, i: nat)
    requires Serving(s, i) && (s.pulls[i].pc.Top? || s.pulls[i].pc.Storing?)
    ensures ServesTo(s, Apply(s, Serve(s, i)), i)
  {
    StepKeepsInv(s, Serve(s, i));
  }

  lemma ServeAtEnd(s: Session, i: nat)
    requires Serving(s, i) && (s.pulls[i].pc.After? || s.pulls[i].pc.Ending?)
    ensures ServesTo(s, Apply(s, Serve(s, i)), i)
  {
    StepKeepsInv(s, Serve(s, i));
  }

  lemma ServeGoesOn(s: Session, i: nat)
    requires Serving(s, i) && !s.pulls[i].pc.Ended?
    ensures ServesTo(s, Apply(s, Serve(s, i)), i)
  {
    match s.pulls[i].pc
    case Header => ServeByReply(s, i);
    case Sending(_, _) => ServeByReply(s, i);
    case Reading => ServeByReading(s, i);
    case Top => ServeByStep(s, i);
    case Storing(_, _) => ServeByStep(s, i);
    case _ => ServeAtEnd(s, i);
  }

  lemma {:induction false} ServedToTheEnd(s: Session, i: nat) returns (more: seq<Action>)
    requires Serving(s, i) && s.read <= |s.produced|
    ensures var t := ApplyAll(s, more); Alike(s, t) && EndedBy(t, i)
    decreases |s.produced| - s.read, ServeRank(s, i)
  {
    if s.pulls[i].pc.Ended? {
      more := [];
    } else {
      var a := Serve(s, i);
      ServeGoesOn(s, i);
      var rest := ServedToTheEnd(Apply(s, a), i);
      more := [a] + rest;
      ThenMore(s, a, rest);
    }
  }

  // ---------------------------------------------------------------------------
  // Main result

  /** All that was produced has been acknowledged, and some response has carried the end-of-stream marker. */
  ghost predicate Complete(s: Session, produced: Bytes) {
    s.produced == s.acked == produced && exists i: nat :: EndedBy(s, i)
  }

  lemma EndedIsComplete(s: Session, i: nat)
    requires Inv(s) && EndedBy(s, i)
    ensures Complete(s, s.produced)
  {
    assert s.pulls[i].pc == Ended(true);
  }

  /** A new pull, once the lease is free. */
  lemma NewPullCompletes(s: Session) returns (more: seq<Action>)
    requires Inv(s) && s.lease == None && s.present && s.finished
    ensures Complete(ApplyAll(s, more), s.produced)
  {
    var i := |s.pulls|;
    var s1 := Apply(s, NewPull);
    StepKeepsInv(s, NewPull);
    var s2 := Apply(s1, Step(i));
    StepKeepsInv(s1, Step(i));
    var rest := ServedToTheEnd(s2, i);
    more := [NewPull] + ([Step(i)] + rest);
    ThenMore(s, NewPull, [Step(i)] + rest);
    ThenMore(s1, Step(i), rest);
    EndedIsComplete(ApplyAll(s2, rest), i);
  }

  /**
   From any reachable state of a live session whose pipe has not failed, once the
   tunnel has finished: everything produced can still be acknowledged, and the
   end-of-stream marker be sent.
   */
  lemma StreamCanEnd(actions: seq<Action>)
    requires var s := Exec(actions); s.present && s.finished && !Doomed(s)
    ensures exists more: seq<Action> :: Complete(Exec(actions + more), Exec(actions).produced)
  {
    ReachableInv(actions);
    var s := Exec(actions);
    var more: seq<Action>;
    if s.lease == None {
      more := NewPullCompletes(s);
    } else {
      var i := s.lease.value;
      var first := LeaseFreed(s, i);
      var t := ApplyAll(s, first);
      if EndedBy(t, i) {
        more := first;
        EndedIsComplete(t, i);
      } else {
        var rest := NewPullCompletes(t);
        more := first + rest;
        ApplyAllConcat(s, first, rest);
      }
    }
    ExecMore(actions, more);
    assert Complete(Exec(actions + more), s.produced);
  }

  /**
   Exactly when a round ends the response with the marker: nothing was left over
   from before, the pipe reported its end, and what it still handed over was flushed.
   */
  lemma MarkerIff(l: Line, r: Round)
    ensures RoundNext(l, r) == EndOfStream
      <==> l.pending == [] && r.err == Eof && (r.chunk == [] || (r.touched && r.flushed))
    ensures RoundNext(l, r) == Again
      <==> (l.pending != [] && r.touched && r.flushed)
           || (l.pending == [] && r.err == NoError && (r.chunk == [] || (r.touched && r.flushed)))
  {
  }

  /** The line before round k. */
  function LineAt(l: Line, rounds: seq<Round>, k: nat): Line
    requires k <= |rounds|
    decreases k
  {
    if k == 0 then l else LineAt(RoundLine(l, rounds[0]), rounds[1..], k - 1)
  }

  /** The pull is still going when it comes to round k. */
  ghost predicate Reaches(l: Line, rounds: seq<Round>, k: nat)
    requires k < |rounds|
    decreases k
  {
    && !rounds[0].cancelled
    && (k > 0 ==> RoundNext(l, rounds[0]) == Again && Reaches(RoundLine(l, rounds[0]), rounds[1..], k - 1))
  }

  ghost predicate MarkedAt(l: Line, rounds: seq<Round>, k: nat) {
    k < |rounds| && Reaches(l, rounds, k) && RoundNext(LineAt(l, rounds, k), rounds[k]) == EndOfStream
  }

  /** A pull ends its response with the marker exactly if it gets to a round that does. */
  lemma {:induction false} PullEndsIff(l: Line, rounds: seq<Round>)
    ensures Pulled(l, rounds).1 <==> exists k: nat :: MarkedAt(l, rounds, k)
    decreases |rounds|
  {
    if rounds != [] && !rounds[0].cancelled {
      var m := RoundLine(l, rounds[0]);
      PullEndsIff(m, rounds[1..]);
      if Pulled(l, rounds).1 {
        if RoundNext(l, rounds[0]) == Again {
          var k: nat :| MarkedAt(m, rounds[1..], k);
          assert MarkedAt(l, rounds, k + 1);
        } else {
          assert MarkedAt(l, rounds, 0);
        }
      }
      if k: nat :| MarkedAt(l, rounds, k) && k > 0 {
        assert MarkedAt(m, rounds[1..], k - 1);
      }
    }
  }

  /** With every payload written also flushed, the response carries nothing but what it acknowledged. */
  lemma {:induction false} NothingTwice(l: Line, rounds: seq<Round>)
    requires forall k | 0 <= k < |rounds| :: rounds[k].touched ==> rounds[k].flushed
    ensures var t := Pulled(l, rounds).0; l.sent <= t.sent && l.acknowledged + Flatten(t.sent[|l.sent|..]) == t.acknowledged
    decreases |rounds|
  {
    if rounds == [] || rounds[0].cancelled {
      assert l.sent[|l.sent|..] == [] && l.acknowledged + [] == l.acknowledged;
    } else {
      var r := rounds[0];
      var m := RoundLine(l, r);
      OneFlushed(l, r);
      if RoundNext(l, r) == Again {
        NothingTwice(m, rounds[1..]);
        SentOn(l, m, Pulled(m, rounds[1..]).0);
      }
    }
  }

  lemma SentOn(l: Line, m: Line, t: Line)
    requires l.sent <= m.sent <= t.sent
    requires l.acknowledged + Flatten(m.sent[|l.sent|..]) == m.acknowledged && m.acknowledged + Flatten(t.sent[|m.sent|..]) == t.acknowledged
    ensures l.acknowledged + Flatten(t.sent[|l.sent|..]) == t.acknowledged
  {
    var a, b := m.sent[|l.sent|..], t.sent[|m.sent|..];
    assert t.sent[|l.sent|..] == a + b;
    FlattenConcat(a, b);
    ConcatAssoc(l.acknowledged, Flatten(a), Flatten(b));
  }

  lemma OneFlushed(l: Line, r: Round)
    requires r.touched ==> r.flushed
    ensures var m := RoundLine(l, r); l.sent <= m.sent && l.acknowledged + Flatten(m.sent[|l.sent|..]) == m.acknowledged
  {
    var payload := Payload(l, r);
    if payload != [] && r.touched {
      assert (l.sent + [payload])[|l.sent|..] == [payload];
      FlattenOne(payload);
    } else {
      assert l.sent[|l.sent|..] == [];
      assert l.acknowledged + [] == l.acknowledged;
    }
  }

  // ---------------------------------------------------------------------------
  // What one step leaves alone

  /** Only handler i may have moved; a stopped handler stays stopped. */
  ghost predicate Others(s: Session, t: Session, i: nat) {
    && |t.pulls| == |s.pulls|
    && forall j | 0 <= j < |s.pulls| ::
         (j != i ==> t.pulls[j].pc == s.pulls[j].pc) && (s.pulls[j].cancelled ==> t.pulls[j].cancelled)
  }

  /** The handler whose step this is. */
  function Mover(a: Action): Option<nat> {
    match a
    case Step(i) => Some(i)
    case HeaderDone(i, _) => Some(i)
    case ReadDone(i, _, _) => Some(i)
    case SendDone(i, _) => Some(i)
    case _ => None
  }

  /** Stopped, and at the top of the loop or behind it. */
  predicate Over(p: Pull) {
    p.cancelled && (p.pc == Top || p.pc == Ending(false) || p.pc == Ended(false))
  }

  predicate Ends(pc: Pc) { pc == Ending(true) || pc == Ended(true) }

  /** The step with which a handler ends the stream. */
  predicate EndsStream(s: Session, a: Action) {
    a.Step? && a.i < |s.pulls| && s.pulls[a.i].pc == After(Eof)
  }

  /** A handler never waits again, and what it waits for is the holder of the lease; being over and having ended the stream last. */
  ghost predicate Moved(s: Session, t: Session, i: nat, ends: bool)
    requires i < |s.pulls|
  {
    && Others(s, t, i)
    && (t.pulls[i].pc.Waiting? ==> s.pulls[i].pc.Waiting? && (t.pulls[i].pc == s.pulls[i].pc || t.pulls[i].pc == Waiting(s.lease)))
    && (Ends(t.pulls[i].pc) <==> Ends(s.pulls[i].pc) || ends)
    && (Over(s.pulls[i]) ==> Over(t.pulls[i]))
  }

  lemma WaitingMoves(s: Session, i: nat)
    requires i < |s.pulls| && s.pulls[i].pc.Waiting?
    ensures Moved(s, Local(s, i), i, false)
  {
    assert Local(s, i) == Begin(s, i);
  }

  lemma PcMoves(s: Session, i: nat, pc: Pc)
    requires i < |s.pulls| && !pc.Waiting? && (Over(s.pulls[i]) ==> Over(Pull(pc, true)))
    requires Ends(s.pulls[i].pc) ==> Ends(pc)
    ensures Moved(s, SetPc(s, i, pc), i, Ends(pc))
  {
  }

  lemma AfterMoves(s: Session, i: nat)
    requires i < |s.pulls| && s.pulls[i].pc.After?
    ensures Moved(s, Local(s, i), i, s.pulls[i].pc.err == Eof)
  {
    if s.pulls[i].pc.err == Broken {
      BrokenMoves(s, i);
    } else {
      PcMoves(s, i, Local(s, i).pulls[i].pc);
    }
  }

  lemma BrokenMoves(s: Session, i: nat)
    requires i < |s.pulls| && s.pulls[i].pc == After(Broken)
    ensures Moved(s, Local(s, i), i, false)
  {
    assert Local(s, i) == SetPc(StopLease(s).(present := false), i, Ending(false));
  }

  lemma TopMoves(s: Session, i: nat)
    requires i < |s.pulls| && s.pulls[i].pc.Top?
    ensures Moved(s, Local(s, i), i, false)
  {
    PcMoves(s, i, Local(s, i).pulls[i].pc);
  }

  lemma StoringMoves(s: Session, i: nat)
    requires i < |s.pulls| && s.pulls[i].pc.Storing?
    ensures Moved(s, Local(s, i), i, false)
  {
    PcMoves(s, i, Local(s, i).pulls[i].pc);
  }

  lemma EndingMoves(s: Session, i: nat)
    requires i < |s.pulls| && s.pulls[i].pc.Ending?
    ensures Moved(s, Local(s, i), i, false)
  {
    PcMoves(s, i, Ended(s.pulls[i].pc.eof));
  }

  lemma LocalMoves(s: Session, i: nat)
    requires i < |s.pulls| && !s.pulls[i].pc.Waiting? && !s.pulls[i].pc.After?
    ensures Moved(s, Local(s, i), i, false)
  {
    match s.pulls[i].pc
    case Top => TopMoves(s, i);
    case Storing(_, _) => StoringMoves(s, i);
    case Ending(_) => EndingMoves(s, i);
    case _ =>
  }

  lemma ReplyMoves(s: Session, a: Action)
    requires (a.HeaderDone? || a.ReadDone? || a.SendDone?) && a.i < |s.pulls|
    ensures Moved(s, Apply(s, a), a.i, false)
  {
  }

  lemma MoverMoves(s: Session, a: Action)
    requires Mover(a).Some? && Mover(a).value < |s.pulls|
    ensures Moved(s, Apply(s, a), Mover(a).value, EndsStream(s, a))
  {
    if a.Step? {
      if s.pulls[a.i].pc.Waiting? {
        WaitingMoves(s, a.i);
      } else if s.pulls[a.i].pc.After? {
        AfterMoves(s, a.i);
      } else {
        LocalMoves(s, a.i);
      }
    } else {
      ReplyMoves(s, a);
    }
  }

  /** Everybody else's steps: a new handler begins to wait, or the lease holder is stopped. */
  lemma NoMover(s: Session, a: Action)
    requires Mover(a).None?
    ensures var t := Apply(s, a);
      && |s.pulls| <= |t.pulls|
      && (forall j | 0 <= j < |s.pulls| :: t.pulls[j].pc == s.pulls[j].pc && (s.pulls[j].cancelled ==> t.pulls[j].cancelled))
      && (forall j | |s.pulls| <= j < |t.pulls| :: t.pulls[j].pc == Waiting(None))
  {
  }

  // ---------------------------------------------------------------------------
  // Taking over

  /** A waiting handler waits for one that has held the lease. */
  ghost predicate WaitInv(s: Session) {
    forall j | 0 <= j < |s.pulls| :: s.pulls[j].pc.Waiting? ==> WaitsFor(s, s.pulls[j].pc.previous)
  }

  predicate WaitsFor(s: Session, previous: Option<nat>) {
    previous.Some? ==> previous.value < |s.pulls| && !s.pulls[previous.value].pc.Waiting?
  }

  lemma StepKeepsWait(s: Session, a: Action)
    requires Inv(s) && WaitInv(s)
    ensures WaitInv(Apply(s, a))
  {
    if Mover(a).None? {
      NoMover(s, a);
    } else if Mover(a).value < |s.pulls| {
      MoverMoves(s, a);
      MovedKeepsWait(s, Apply(s, a), Mover(a).value, EndsStream(s, a));
    }
  }

  lemma MovedKeepsWait(s: Session, t: Session, i: nat, ends: bool)
    requires Inv(s) && WaitInv(s) && i < |s.pulls| && Moved(s, t, i, ends)
    ensures WaitInv(t)
  {
    forall j | 0 <= j < |t.pulls| && t.pulls[j].pc.Waiting? ensures WaitsFor(t, t.pulls[j].pc.previous) {
      assert WaitsFor(s, s.pulls[j].pc.previous);
    }
  }

  lemma {:induction false} ReachableWait(actions: seq<Action>)
    ensures Inv(Exec(actions)) && WaitInv(Exec(actions))
  {
    ReachableInv(actions);
    if actions != [] {
      ReachableWait(actions[..|actions| - 1]);
      StepKeepsWait(Exec(actions[..|actions| - 1]), actions[|actions| - 1]);
    }
  }

  /** A new pull that finds the lease taken stops its holder, nobody else, and waits for it. */
  lemma TakeoverStopsHolder(actions: seq<Action>, j: nat)
    requires var s := Exec(actions); s.present && s.lease.Some? && j < |s.pulls| && s.pulls[j].pc == Waiting(None)
    ensures var s := Exec(actions);
      var t, i := Apply(s, Step(j)), s.lease.value;
      && i < |s.pulls| && i != j
      && t == s.(pulls := s.pulls[i := s.pulls[i].(cancelled := true)][j := s.pulls[j].(pc := Waiting(Some(i)))])
  {
    ReachableInv(actions);
  }

  lemma OverStaysOver(s: Session, a: Action, i: nat)
    requires i < |s.pulls| && Over(s.pulls[i])
    ensures i < |Apply(s, a).pulls| && Over(Apply(s, a).pulls[i])
  {
    if Mover(a).None? {
      NoMover(s, a);
    } else if Mover(a).value < |s.pulls| {
      MoverMoves(s, a);
      MovedKeepsOver(s, a, i);
    }
  }

  lemma MovedKeepsOver(s: Session, a: Action, i: nat)
    requires Mover(a).Some? && Mover(a).value < |s.pulls| && Moved(s, Apply(s, a), Mover(a).value, EndsStream(s, a))
    requires i < |s.pulls| && Over(s.pulls[i])
    ensures Over(Apply(s, a).pulls[i])
  {
  }

  lemma {:induction false} OverAll(s: Session, more: seq<Action>, i: nat)
    requires i < |s.pulls| && Over(s.pulls[i])
    ensures i < |ApplyAll(s, more).pulls| && Over(ApplyAll(s, more).pulls[i])
    decreases |more|
  {
    if more != [] {
      OverStaysOver(s, more[0], i);
      OverAll(Apply(s, more[0]), more[1..], i);
    }
  }

  /** Once a stopped handler is back at the top of its loop, it never reads, sends or ends the stream again. */
  lemma StoppedIsOver(actions: seq<Action>, more: seq<Action>, i: nat)
    requires i < |Exec(actions).pulls| && Over(Exec(actions).pulls[i])
    ensures i < |Exec(actions + more).pulls| && Over(Exec(actions + more).pulls[i])
  {
    ExecMore(actions, more);
    OverAll(Exec(actions), more, i);
  }

  lemma {:induction false} WaitsOn(s: Session, more: seq<Action>)
    requires Inv(s) && WaitInv(s)
    ensures WaitInv(ApplyAll(s, more))
    decreases |more|
  {
    if more != [] {
      StepKeepsInv(s, more[0]);
      StepKeepsWait(s, more[0]);
      WaitsOn(Apply(s, more[0]), more[1..]);
    }
  }

  lemma FreeLeaseIsTaken(s: Session, j: nat)
    requires Inv(s) && WaitInv(s) && s.present && s.lease == None && j < |s.pulls| && s.pulls[j].pc.Waiting?
    ensures Apply(s, Step(j)).lease == Some(j) && Apply(s, Step(j)).pulls[j].pc == Header
  {
    assert WaitsFor(s, s.pulls[j].pc.previous);
  }

  lemma LeaveAlone(s: Session, i: nat, j: nat)
    requires i < |s.pulls| && j < |s.pulls| && j != i
    ensures j < |Apply(s, Leave(s, i)).pulls| && Apply(s, Leave(s, i)).pulls[j].pc == s.pulls[j].pc
  {
    assert Mover(Leave(s, i)) == Some(i);
    MoverMoves(s, Leave(s, i));
  }

  /** The waiting handler is left alone by what its holder does to leave. */
  lemma {:induction false} FreedFor(s: Session, i: nat, j: nat) returns (more: seq<Action>)
    requires Leaving(s, i) && j < |s.pulls| && j != i
    ensures var t := ApplyAll(s, more);
      Alike(s, t) && t.pulls[j].pc == s.pulls[j].pc && (EndedBy(t, i) || (t.lease == None && t.present))
    decreases LeaveRank(s.pulls[i].pc)
  {
    var a := Leave(s, i);
    var t := Apply(s, a);
    LeaveGoesOn(s, i);
    LeaveAlone(s, i, j);
    if t.pulls[i].pc.Ended? {
      more := [a];
      ApplyOne(s, a);
    } else {
      var rest := FreedFor(t, i, j);
      more := [a] + rest;
      ThenMore(s, a, rest);
    }
  }

  /** Handler j holds the lease and is about to answer; or the stream has been ended before. */
  ghost predicate TookOver(s: Session, j: nat) {
    || (s.lease == Some(j) && j < |s.pulls| && s.pulls[j].pc == Header)
    || exists i: nat :: EndedBy(s, i)
  }

  /** From any reachable state of a live session: a waiting pull can still get the lease, unless its holder ends the stream. */
  lemma WaitingPullCanTakeOver(actions: seq<Action>, j: nat)
    requires var s := Exec(actions); s.present && !Doomed(s) && j < |s.pulls| && s.pulls[j].pc.Waiting?
    ensures exists more: seq<Action> :: TookOver(Exec(actions + more), j)
  {
    ReachableWait(actions);
    var s := Exec(actions);
    var more: seq<Action>;
    if s.lease == None {
      more := [Step(j)];
      ApplyOne(s, Step(j));
      FreeLeaseIsTaken(s, j);
    } else {
      var i := s.lease.value;
      var first := FreedFor(s, i, j);
      WaitsOn(s, first);
      var t := ApplyAll(s, first);
      if EndedBy(t, i) {
        more := first;
      } else {
        more := first + [Step(j)];
        ApplyAllConcat(s, first, [Step(j)]);
        ApplyOne(t, Step(j));
        FreeLeaseIsTaken(t, j);
      }
    }
    ExecMore(actions, more);
    assert TookOver(Exec(actions + more), j);
  }

  // ---------------------------------------------------------------------------
  // How long a session lives

  ghost predicate StreamEnded(s: Session) {
    exists i | 0 <= i < |s.pulls| :: Ends(s.pulls[i].pc)
  }

  /** The steps that remove a session: its close, and a handler's that found the pipe broken. */
  predicate Kills(s: Session, a: Action) {
    a == CloseSession || (a.Step? && a.i < |s.pulls| && s.pulls[a.i].pc == After(Broken))
  }

  ghost predicate Killed(actions: seq<Action>) {
    actions != [] && (Killed(actions[..|actions| - 1]) || Kills(Exec(actions[..|actions| - 1]), actions[|actions| - 1]))
  }

  ghost predicate LifeInv(s: Session, up: bool, killed: bool) {
    && s.uplinkClosed == up && s.downlinkClosed == StreamEnded(s)
    && s.present == !(killed || (up && StreamEnded(s)))
  }

  lemma StreamEndedStep(s: Session, a: Action)
    ensures StreamEnded(Apply(s, a)) <==> StreamEnded(s) || EndsStream(s, a)
  {
    if Mover(a).None? {
      NoMover(s, a);
      SameEnds(s, Apply(s, a));
    } else if Mover(a).value < |s.pulls| {
      MoverMoves(s, a);
      MovedEnds(s, Apply(s, a), Mover(a).value, EndsStream(s, a));
    }
  }

  lemma SameEnds(s: Session, t: Session)
    requires |s.pulls| <= |t.pulls| && forall j | 0 <= j < |s.pulls| :: t.pulls[j].pc == s.pulls[j].pc
    requires forall j | |s.pulls| <= j < |t.pulls| :: t.pulls[j].pc == Waiting(None)
    ensures StreamEnded(t) <==> StreamEnded(s)
  {
    if i :| 0 <= i < |s.pulls| && Ends(s.pulls[i].pc) { assert Ends(t.pulls[i].pc); }
  }

  lemma MovedEnds(s: Session, t: Session, i: nat, ended: bool)
    requires i < |s.pulls| && Moved(s, t, i, ended)
    ensures StreamEnded(t) <==> StreamEnded(s) || ended
  {
    if j :| 0 <= j < |s.pulls| && Ends(s.pulls[j].pc) { assert Ends(t.pulls[j].pc); }
    if j :| 0 <= j < |t.pulls| && Ends(t.pulls[j].pc) && j != i { assert Ends(s.pulls[j].pc); }
  }

  /** What one step does to the three flags. */
  lemma FlagsStep(s: Session, a: Action)
    ensures var t := Apply(s, a);
      && t.uplinkClosed == (s.uplinkClosed || a == CloseUplink)
      && t.downlinkClosed == (s.downlinkClosed || EndsStream(s, a))
      && t.present == (s.present && !Kills(s, a) && !(EndsStream(s, a) && s.uplinkClosed) && !(a == CloseUplink && s.downlinkClosed))
  {
    if a.Step? && a.i < |s.pulls| { LocalFlags(s, a.i); }
  }

  ghost predicate FlagsMoved(s: Session, t: Session, pc: Pc) {
    && t.uplinkClosed == s.uplinkClosed && t.downlinkClosed == (s.downlinkClosed || pc == After(Eof))
    && t.present == (s.present && pc != After(Broken) && !(pc == After(Eof) && s.uplinkClosed))
  }

  lemma LocalFlags(s: Session, i: nat)
    requires i < |s.pulls|
    ensures FlagsMoved(s, Local(s, i), s.pulls[i].pc)
  {
    match s.pulls[i].pc
    case Waiting(_) => BeginFlags(s, i);
    case After(_) => AfterFlags(s, i);
    case _ => OtherFlags(s, i);
  }

  lemma BeginFlags(s: Session, i: nat)
    requires i < |s.pulls| && s.pulls[i].pc.Waiting?
    ensures FlagsMoved(s, Local(s, i), s.pulls[i].pc)
  {
    assert Local(s, i) == Begin(s, i);
  }

  lemma AfterFlags(s: Session, i: nat)
    requires i < |s.pulls| && s.pulls[i].pc.After?
    ensures FlagsMoved(s, Local(s, i), s.pulls[i].pc)
  {
  }

  lemma OtherFlags(s: Session, i: nat)
    requires i < |s.pulls| && !s.pulls[i].pc.Waiting? && !s.pulls[i].pc.After?
    ensures FlagsMoved(s, Local(s, i), s.pulls[i].pc)
  {
  }

  lemma LifeStep(s: Session, a: Action, up: bool, killed: bool)
    requires LifeInv(s, up, killed)
    ensures LifeInv(Apply(s, a), up || a == CloseUplink, killed || Kills(s, a))
  {
    StreamEndedStep(s, a);
    FlagsStep(s, a);
  }

  /**
   A session is there exactly until it is closed or a handler finds its pipe broken,
   or until both directions have ended: the uplink closed, and the end-of-stream
   answer under way or given.
   */
  lemma {:induction false} SessionLivesIff(actions: seq<Action>)
    ensures var s := Exec(actions);
      && (s.present <==> !Killed(actions) && !(CloseUplink in actions && StreamEnded(s)))
      && (s.uplinkClosed <==> CloseUplink in actions) && (s.downlinkClosed <==> StreamEnded(s))
  {
    if actions != [] {
      var init, last := actions[..|actions| - 1], actions[|actions| - 1];
      SessionLivesIff(init);
      assert actions == init + [last];
      LifeStep(Exec(init), last, CloseUplink in init, Killed(init));
    }
  }
}
