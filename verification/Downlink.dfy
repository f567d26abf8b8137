/**
 The HTTPMask downlink: pull requests of one session are serialised by a lease,
 and bytes taken from the session pipe stay in the session until a response
 carrying them has been flushed.
 */
module Downlink {
  import opened Common

  const PULL_BUFFER := 32 * 1024

  datatype ReadError = NoError | Deadline | Eof | Broken

  // ---------------------------------------------------------------------------
  // The pull loop in the session's own fields

  /** What the environment does in one iteration of the loop. */
  datatype Round = Round(cancelled: bool, chunk: Bytes, err: ReadError, touched: bool, flushed: bool)

  /** The bytes of one session: unacknowledged, read from its pipe, in flushed responses, and every payload written to one. */
  datatype Line = Line(pending: Bytes, taken: Bytes, acknowledged: Bytes, sent: seq<Bytes>)

  datatype Next = Again | GiveUp | EndOfStream

  /** What a round has to send: the bytes left over from before, or else what it reads. */
  function Payload(l: Line, r: Round): Bytes { if l.pending == [] then r.chunk else l.pending }

  function RoundLine(l: Line, r: Round): Line {
    var payload := Payload(l, r);
    var taken := if l.pending == [] then l.taken + r.chunk else l.taken;
    var sent := if payload != [] && r.touched then l.sent + [payload] else l.sent;
    if r.touched && r.flushed then Line([], taken, l.acknowledged + payload, sent) else Line(payload, taken, l.acknowledged, sent)
  }

  function RoundNext(l: Line, r: Round): Next {
    if Payload(l, r) != [] && !(r.touched && r.flushed) then GiveUp
    else if l.pending != [] then Again
    else
      match r.err
      case NoError => Again
      case Eof => EndOfStream
      case _ => GiveUp
  }

  /** The rounds of one pull, and whether its response ends with the end-of-stream marker. */
  function Pulled(l: Line, rounds: seq<Round>): (Line, bool)
    decreases |rounds|
  {
    if rounds == [] || rounds[0].cancelled then (l, false)
    else if RoundNext(l, rounds[0]) == Again then Pulled(RoundLine(l, rounds[0]), rounds[1..])
    else (RoundLine(l, rounds[0]), RoundNext(l, rounds[0]) == EndOfStream)
  }

  ghost predicate Balanced(l: Line) { l.taken == l.acknowledged + l.pending }

  lemma RoundBalances(l: Line, r: Round)
    requires Balanced(l)
    ensures Balanced(RoundLine(l, r))
  {
    if l.pending == [] {
      assert l.acknowledged + [] + r.chunk == l.acknowledged + r.chunk + [] == l.acknowledged + r.chunk;
    } else {
      assert l.acknowledged + l.pending + [] == l.acknowledged + l.pending;
    }
  }

  /**
   What one pull's response carries: exactly the bytes it acknowledged, in order,
   and behind them at most once the bytes still pending, when the flush of those
   failed; the next pull starts with them again. The end-of-stream marker goes
   out only with nothing left over.
   */
  lemma {:induction false} ResponseCarries(l: Line, rounds: seq<Round>)
    requires Balanced(l)
    ensures var (t, eof) := Pulled(l, rounds);
      && Balanced(t) && l.taken <= t.taken && l.sent <= t.sent
      && Carries(l, t, eof)
    decreases |rounds|
  {
    if rounds == [] || rounds[0].cancelled {
      assert l.sent[|l.sent|..] == [];
      assert l.acknowledged + [] == l.acknowledged;
    } else {
      var r := rounds[0];
      var m := RoundLine(l, r);
      RoundBalances(l, r);
      RoundCarries(l, r);
      if RoundNext(l, r) == Again {
        ResponseCarries(m, rounds[1..]);
        CarriesOn(l, m, Pulled(m, rounds[1..]).0, Pulled(m, rounds[1..]).1);
      }
    }
  }

  ghost predicate Carries(l: Line, t: Line, eof: bool)
    requires l.sent <= t.sent
  {
    var carried := l.acknowledged + Flatten(t.sent[|l.sent|..]);
    && (carried == t.acknowledged || carried == t.acknowledged + t.pending)
    && (eof ==> t.pending == [])
  }

  lemma RoundCarries(l: Line, r: Round)
    ensures l.sent <= RoundLine(l, r).sent
    ensures RoundNext(l, r) == Again ==> l.acknowledged + Flatten(RoundLine(l, r).sent[|l.sent|..]) == RoundLine(l, r).acknowledged
    ensures Carries(l, RoundLine(l, r), RoundNext(l, r) == EndOfStream)
  {
    var payload := Payload(l, r);
    if payload != [] && r.touched {
      assert (l.sent + [payload])[|l.sent|..] == [payload];
      FlattenOne(payload);
    } else {
      assert l.sent[|l.sent|..] == [];
      assert l.acknowledged + [] == l.acknowledged;
    }
  }

  lemma FlattenOne(b: Bytes)
    ensures Flatten([b]) == b
  {
    assert [b][1..] == [] && b + [] == b;
  }

  lemma CarriesOn(l: Line, m: Line, t: Line, eof: bool)
    requires l.sent <= m.sent <= t.sent && Carries(m, t, eof)
    requires l.acknowledged + Flatten(m.sent[|l.sent|..]) == m.acknowledged
    ensures Carries(l, t, eof)
  {
    var a, b := m.sent[|l.sent|..], t.sent[|m.sent|..];
    assert t.sent[|l.sent|..] == a + b;
    FlattenConcat(a, b);
    ConcatAssoc(l.acknowledged, Flatten(a), Flatten(b));
  }

  class PullSession {
    var pendingDownlink: Bytes
    ghost var taken: Bytes         // everything read from the session pipe
    ghost var acknowledged: Bytes  // everything in a flushed response
    ghost var sent: seq<Bytes>     // every payload written to a response

    ghost function View(): Line
      reads this
    {
      Line(pendingDownlink, taken, acknowledged, sent)
    }

    constructor ()
      ensures View() == Line([], [], [], []) && Balanced(View())
    {
      pendingDownlink, taken, acknowledged, sent := [], [], [], [];
    }

    method StoreDownlink(payload: Bytes)
      modifies this`pendingDownlink
      ensures pendingDownlink == if |old(pendingDownlink)| == 0 then payload else old(pendingDownlink)
    {
      if |pendingDownlink| == 0 { pendingDownlink := payload; }
    }

    method AcknowledgeDownlink(n: int)
      modifies this`pendingDownlink
      ensures n <= 0 ==> pendingDownlink == old(pendingDownlink)
      ensures 0 < n < |old(pendingDownlink)| ==> pendingDownlink == old(pendingDownlink)[n..]
      ensures 0 < n && n >= |old(pendingDownlink)| ==> pendingDownlink == []
    {
      if n <= 0 { return; }
      if n >= |pendingDownlink| {
        pendingDownlink := [];
      } else {
        pendingDownlink := pendingDownlink[n..];
      }
    }

    /** The loop of sessionPull while it holds the lease. */
    method SessionPull(rounds: seq<Round>) returns (streamEOF: bool)
      modifies this
      ensures (View(), streamEOF) == Pulled(old(View()), rounds)
    {
      streamEOF := false;
      ghost var goal := Pulled(View(), rounds);
      for i := 0 to |rounds|
        invariant !streamEOF && Pulled(View(), rounds[i..]) == goal
      {
        var r := rounds[i];
        assert rounds[i..][0] == r && rounds[i..][1..] == rounds[i + 1..];
        if r.cancelled { return false; }
        ghost var l := View();
        var payload, err := pendingDownlink, NoError;
        if |payload| == 0 {
          err := r.err;
          taken := taken + r.chunk;
          if |r.chunk| > 0 {
            StoreDownlink(r.chunk);
            payload := pendingDownlink;
          }
        }
        assert payload == Payload(l, r);
        if |payload| > 0 {
          if !r.touched { return false; }
          sent := sent + [payload];
          if !r.flushed { return false; }
          AcknowledgeDownlink(|payload|);
          acknowledged := acknowledged + payload;
        }
        assert acknowledged == l.acknowledged + payload;
        match err
        case NoError =>
        case Eof => return true;
        case _ => return false;
      }
    }
  }

  // ---------------------------------------------------------------------------
  // Many pulls at once, step by step under the locks the code takes

  /** The program counter of one pull handler. */
  datatype Pc =
    | Waiting(previous: Option<nat>)
    | Header
    | Top
    | Reading
    | Storing(buf: Bytes, err: ReadError)
    | Sending(payload: Bytes, err: ReadError)
    | After(err: ReadError)
    | Ending(eof: bool)
    | Ended(eof: bool)

  datatype Pull = Pull(pc: Pc, cancelled: bool)

  /** `produced` is all the tunnel side wrote to the pipe, of which `read` bytes were taken out of it. */
  datatype Session = Session(
    present: bool, uplinkClosed: bool, downlinkClosed: bool,
    lease: Option<nat>, pending: Bytes, pulls: seq<Pull>,
    produced: Bytes, finished: bool, read: nat, acked: Bytes)

  datatype Action =
    | NewPull
    | Step(i: nat)
    | HeaderDone(i: nat, ok: bool)
    | ReadDone(i: nat, n: nat, err: ReadError)
    | SendDone(i: nat, ok: bool)
    | Produce(data: Bytes)
    | FinishTunnel
    | CloseUplink
    | CloseSession

  const INITIAL := Session(true, false, false, None, [], [], [], false, 0, [])

  function SetPc(s: Session, i: nat, pc: Pc): Session
    requires i < |s.pulls|
  {
    s.(pulls := s.pulls[i := s.pulls[i].(pc := pc)])
  }

  /** Stop the pull that holds the lease, if any. */
  function StopLease(s: Session): Session {
    if s.lease.Some? && s.lease.value < |s.pulls| then
      s.(pulls := s.pulls[s.lease.value := s.pulls[s.lease.value].(cancelled := true)])
    else s
  }

  /** One pass of beginSessionPull: give up, take the free lease, or stop its holder and wait for it. */
  function Begin(s: Session, i: nat): Session
    requires i < |s.pulls| && s.pulls[i].pc.Waiting?
  {
    var previous := s.pulls[i].pc.previous;
    if previous.Some? && previous.value < |s.pulls| && !s.pulls[previous.value].pc.Ended? then s
    else if !s.present then SetPc(s, i, Ended(false))
    else if s.lease.None? then SetPc(s, i, Header).(lease := Some(i))
    else SetPc(StopLease(s), i, Waiting(s.lease))
  }

  /** The steps of a handler that need nothing from the environment. */
  function Local(s: Session, i: nat): Session
    requires i < |s.pulls|
  {
    match s.pulls[i].pc
    case Waiting(_) => Begin(s, i)
    case Top =>
      if s.pulls[i].cancelled then SetPc(s, i, Ending(false))
      else if s.pending == [] then SetPc(s, i, Reading)
      else SetPc(s, i, Sending(s.pending, NoError))
    case Storing(buf, err) =>
      if buf == [] then SetPc(s, i, After(err))
      else
        var stored := if s.pending == [] then buf else s.pending;
        SetPc(s, i, Sending(stored, err)).(pending := stored)
    case After(err) =>
      (match err
       case NoError => SetPc(s, i, Top)
       case Deadline => SetPc(s, i, Ending(false))
       case Eof =>
         SetPc(s, i, Ending(true)).(downlinkClosed := true, present := s.present && !s.uplinkClosed)
       case Broken => SetPc(StopLease(s).(present := false), i, Ending(false)))
    case Ending(eof) =>
      SetPc(s, i, Ended(eof)).(lease := if s.lease == Some(i) then None else s.lease)
    case _ => s
  }

  function Acknowledge(pending: Bytes, n: nat): Bytes {
    if n >= |pending| then [] else pending[n..]
  }

  /** One step; an action that is not enabled leaves the session as it is. */
  function Apply(s: Session, a: Action): Session {
    match a
    case NewPull => if s.present then s.(pulls := s.pulls + [Pull(Waiting(None), false)]) else s
    case Step(i) => if i < |s.pulls| then Local(s, i) else s
    case HeaderDone(i, ok) =>
      if i < |s.pulls| && s.pulls[i].pc.Header? then SetPc(s, i, if ok then Top else Ending(false)) else s
    case ReadDone(i, n, err) =>
      // The pipe hands over at most one buffer, and end of stream only when it is drained and closed.
      if i < |s.pulls| && s.pulls[i].pc.Reading? && n <= PULL_BUFFER && s.read + n <= |s.produced|
         && (err == Eof ==> s.finished && s.read + n == |s.produced|)
      then SetPc(s, i, Storing(s.produced[s.read..s.read + n], err)).(read := s.read + n)
      else s
    case SendDone(i, ok) =>
      if i < |s.pulls| && s.pulls[i].pc.Sending? then
        if ok && s.present then
          var payload := s.pulls[i].pc.payload;
          SetPc(s, i, After(s.pulls[i].pc.err))
            .(pending := Acknowledge(s.pending, |payload|), acked := s.acked + payload)
        else SetPc(s, i, Ending(false))
      else s
    case Produce(data) => if s.finished then s else s.(produced := s.produced + data)
    case FinishTunnel => s.(finished := true)
    case CloseUplink => s.(uplinkClosed := true, present := s.present && !s.downlinkClosed)
    case CloseSession => StopLease(s).(present := false)
  }

  function Exec(actions: seq<Action>): Session {
    if actions == [] then INITIAL
    else Apply(Exec(actions[..|actions| - 1]), actions[|actions| - 1])
  }

  // ---------------------------------------------------------------------------
  // A round of the loop is a sequence of these steps

  function ApplyAll(s: Session, actions: seq<Action>): Session
    decreases |actions|
  {
    if actions == [] then s else ApplyAll(Apply(s, actions[0]), actions[1..])
  }

  function LineOf(s: Session): Line
    requires s.read <= |s.produced|
  {
    Line(s.pending, s.produced[..s.read], s.acked, [])
  }

  /** What the session pipe may hand to handler i, and what the session lets it send. */
  ghost predicate Possible(s: Session, i: nat, r: Round) {
    && s.read <= |s.produced| && i < |s.pulls| && s.pulls[i] == Pull(Top, false) && !r.cancelled
    && (r.touched ==> s.present)
    && (s.pending == [] ==>
          && |r.chunk| <= PULL_BUFFER && s.read + |r.chunk| <= |s.produced|
          && r.chunk == s.produced[s.read..s.read + |r.chunk|]
          && (r.err == Eof ==> s.finished && s.read + |r.chunk| == |s.produced|))
  }

  function PcAfter(n: Next): Pc {
    match n
    case Again => Top
    case GiveUp => Ending(false)
    case EndOfStream => Ending(true)
  }

  /** Where handler i and the bytes of the session are after a round. */
  ghost predicate Finished(s: Session, i: nat, r: Round, t: Session)
    requires s.read <= |s.produced|
  {
    && t.read <= |t.produced| && t.produced == s.produced && i < |t.pulls|
    && LineOf(t) == RoundLine(LineOf(s), r).(sent := [])
    && t.pulls[i].pc == PcAfter(RoundNext(LineOf(s), r))
  }

  function PcOf(err: ReadError): Pc {
    match err
    case NoError => Top
    case Eof => Ending(true)
    case _ => Ending(false)
  }

  ghost predicate SameBytes(s: Session, t: Session) {
    t.produced == s.produced && t.read == s.read && t.pending == s.pending && t.acked == s.acked
  }

  lemma AfterPhase(m: Session, i: nat, err: ReadError)
    requires i < |m.pulls| && m.pulls[i].pc == After(err)
    ensures var t := Apply(m, Step(i)); SameBytes(m, t) && i < |t.pulls| && t.pulls[i].pc == PcOf(err)
  {
  }

  /** From Sending on. */
  lemma SendPhase(m: Session, i: nat, err: ReadError, ok: bool) returns (steps: seq<Action>)
    requires i < |m.pulls| && m.pending != [] && m.pulls[i].pc == Sending(m.pending, err) && (ok ==> m.present)
    ensures var t := ApplyAll(m, steps);
      && t.produced == m.produced && t.read == m.read && i < |t.pulls|
      && t.pending == (if ok then [] else m.pending) && t.acked == (if ok then m.acked + m.pending else m.acked)
      && t.pulls[i].pc == if ok then PcOf(err) else Ending(false)
  {
    var sent := Apply(m, SendDone(i, ok));
    if ok {
      steps := [SendDone(i, ok), Step(i)];
      Two(m, SendDone(i, ok), Step(i));
      AfterPhase(sent, i, err);
    } else {
      steps := [SendDone(i, ok)];
      assert steps[1..] == [];
    }
  }

  lemma Two(s: Session, a: Action, b: Action)
    ensures ApplyAll(s, [a, b]) == Apply(Apply(s, a), b)
  {
    var one := [b];
    assert [a, b][1..] == one && one[1..] == [];
    assert ApplyAll(Apply(s, a), one) == ApplyAll(Apply(Apply(s, a), b), []);
  }

  lemma ThenMore(s: Session, a: Action, more: seq<Action>)
    ensures ApplyAll(s, [a] + more) == ApplyAll(Apply(s, a), more)
  {
    assert ([a] + more)[1..] == more;
  }

  /** From Reading on: what the pipe hands over goes into the session first. */
  lemma ReadPhase(m: Session, i: nat, r: Round) returns (steps: seq<Action>)
    requires i < |m.pulls| && m.pending == [] && m.pulls[i].pc == Storing(r.chunk, r.err) && (r.touched ==> m.present)
    ensures var t, ok := ApplyAll(m, steps), r.touched && r.flushed;
      && t.produced == m.produced && t.read == m.read && i < |t.pulls|
      && t.pending == (if ok then [] else r.chunk) && t.acked == (if ok then m.acked + r.chunk else m.acked)
      && t.pulls[i].pc == if r.chunk == [] || ok then PcOf(r.err) else Ending(false)
  {
    var next := Apply(m, Step(i));
    if r.chunk == [] {
      steps := [Step(i), Step(i)];
      Two(m, Step(i), Step(i));
      AfterPhase(next, i, r.err);
    } else {
      var rest := SendPhase(next, i, r.err, r.touched && r.flushed);
      steps := [Step(i)] + rest;
      ThenMore(m, Step(i), rest);
    }
  }

  lemma ResendIsSteps(s: Session, i: nat, r: Round) returns (steps: seq<Action>)
    requires Possible(s, i, r) && s.pending != []
    ensures Finished(s, i, r, ApplyAll(s, steps))
  {
    var rest := SendPhase(Apply(s, Step(i)), i, NoError, r.touched && r.flushed);
    steps := [Step(i)] + rest;
    ThenMore(s, Step(i), rest);
  }

  /** From Top to what the pipe hands over. */
  lemma ReadStep(s: Session, i: nat, r: Round) returns (m: Session)
    requires Possible(s, i, r) && s.pending == []
    ensures m == Apply(Apply(s, Step(i)), ReadDone(i, |r.chunk|, r.err))
    ensures i < |m.pulls| && m.pulls[i].pc == Storing(r.chunk, r.err) && m.present == s.present
    ensures m.produced == s.produced && m.read == s.read + |r.chunk| && m.pending == [] && m.acked == s.acked
  {
    m := Apply(Apply(s, Step(i)), ReadDone(i, |r.chunk|, r.err));
  }

  lemma ReadIsSteps(s: Session, i: nat, r: Round) returns (steps: seq<Action>)
    requires Possible(s, i, r) && s.pending == []
    ensures Finished(s, i, r, ApplyAll(s, steps))
  {
    var next, read := Apply(s, Step(i)), ReadDone(i, |r.chunk|, r.err);
    var m := ReadStep(s, i, r);
    var rest := ReadPhase(m, i, r);
    steps := [Step(i)] + ([read] + rest);
    ThenMore(s, Step(i), [read] + rest);
    ThenMore(next, read, rest);
    assert s.produced[..s.read + |r.chunk|] == s.produced[..s.read] + r.chunk;
  }

  /** Every round that is possible in a session is a run of the handler's steps, with the same bytes and the same outcome. */
  lemma RoundIsSteps(s: Session, i: nat, r: Round) returns (steps: seq<Action>)
    requires Possible(s, i, r)
    ensures Finished(s, i, r, ApplyAll(s, steps))
  {
    if s.pending != [] { steps := ResendIsSteps(s, i, r); } else { steps := ReadIsSteps(s, i, r); }
  }

  /** Between taking the lease and giving it back. */
  predicate Active(pc: Pc) {
    !pc.Waiting? && !pc.Ended?
  }

  /** Bytes a handler has read from the pipe but not stored yet. */
  function InHand(s: Session): Bytes {
    if s.lease.Some? && s.lease.value < |s.pulls| && s.pulls[s.lease.value].pc.Storing?
    then s.pulls[s.lease.value].pc.buf else []
  }

  ghost predicate Drained(s: Session) {
    s.finished && s.read == |s.produced|
  }

  ghost predicate PullInv(s: Session, pc: Pc) {
    && (pc.Reading? || pc.Storing? ==> s.pending == [])
    && (pc.Sending? ==> pc.payload == s.pending && pc.payload != [])
    && ((pc.Storing? || pc.Sending?) && pc.err == Eof ==> Drained(s))
    && (pc.After? && pc.err == Eof ==> Drained(s) && s.pending == [])
  }

  /** The lease names the one active handler. */
  ghost predicate LeaseInv(s: Session) {
    && (s.lease.Some? ==> s.lease.value < |s.pulls| && Active(s.pulls[s.lease.value].pc))
    && (forall i | 0 <= i < |s.pulls| :: Active(s.pulls[i].pc) ==> s.lease == Some(i))
  }

  ghost predicate Conserved(produced: Bytes, read: nat, acked: Bytes, pending: Bytes, inHand: Bytes) {
    read <= |produced| && produced[..read] == acked + pending + inHand
  }

  /** Bytes are conserved, and the active handler's locals agree with the session. */
  ghost predicate DataInv(s: Session)
    requires LeaseInv(s)
  {
    && Conserved(s.produced, s.read, s.acked, s.pending, InHand(s))
    && (s.lease.Some? ==> PullInv(s, s.pulls[s.lease.value].pc))
  }

  ghost predicate EofInv(s: Session) {
    forall i | 0 <= i < |s.pulls| ::
      s.pulls[i].pc == Ending(true) || s.pulls[i].pc == Ended(true) ==> Drained(s) && s.acked == s.produced
  }

  ghost predicate Inv(s: Session) {
    LeaseInv(s) && DataInv(s) && EofInv(s)
  }

  /** Same handlers at the same places, possibly stopped: nothing the invariant speaks of has changed. */
  lemma StopKeepsInv(s: Session, present: bool)
    requires Inv(s)
    ensures Inv(StopLease(s).(present := present))
  {
    var s' := StopLease(s);
    assert forall i | 0 <= i < |s.pulls| :: s'.pulls[i].pc == s.pulls[i].pc;
  }

  /** The lease holder moves on and keeps the lease. */
  lemma HolderStepKeepsInv(s: Session, s': Session, i: nat)
    requires Inv(s) && i < |s.pulls| && s.lease == Some(i)
    requires s'.lease == s.lease && |s'.pulls| == |s.pulls| && Active(s'.pulls[i].pc)
    requires forall j | 0 <= j < |s.pulls| && j != i :: s'.pulls[j].pc == s.pulls[j].pc
    requires s'.finished == s.finished && s.produced == s'.produced && s.read <= s'.read <= |s.produced|
    requires s.acked <= s'.acked
    requires Conserved(s'.produced, s'.read, s'.acked, s'.pending, InHand(s'))
    requires PullInv(s', s'.pulls[i].pc)
    requires s'.pulls[i].pc == Ending(true) ==> Drained(s') && s'.acked == s'.produced
    ensures Inv(s')
  {
    forall j | 0 <= j < |s'.pulls| && (s'.pulls[j].pc == Ending(true) || s'.pulls[j].pc == Ended(true))
      ensures Drained(s') && s'.acked == s'.produced
    {
      if j != i {
        assert s.acked == s.produced && s.acked <= s'.acked;
        assert |s'.acked| <= |s'.produced[..s'.read]|;
      }
    }
  }

  /** A handler that does not hold the lease moves without taking it. */
  lemma OutsiderStepKeepsInv(s: Session, i: nat, pc: Pc)
    requires Inv(s) && i < |s.pulls| && s.lease != Some(i) && !Active(pc) && pc != Ended(true)
    ensures Inv(SetPc(s, i, pc))
  {
    assert InHand(SetPc(s, i, pc)) == InHand(s);
  }

  lemma TakeLeaseKeepsInv(s: Session, i: nat)
    requires Inv(s) && i < |s.pulls| && s.lease.None?
    ensures Inv(SetPc(s, i, Header).(lease := Some(i)))
  {
    assert InHand(SetPc(s, i, Header).(lease := Some(i))) == InHand(s) == [];
  }

  lemma EndKeepsInv(s: Session, i: nat)
    requires Inv(s) && i < |s.pulls| && s.pulls[i].pc.Ending?
    ensures Inv(Local(s, i))
  {
    assert s.lease == Some(i) && InHand(Local(s, i)) == InHand(s) == [];
  }

  lemma BeginKeepsInv(s: Session, i: nat)
    requires Inv(s) && i < |s.pulls| && s.pulls[i].pc.Waiting?
    ensures Inv(Begin(s, i))
  {
    if !s.present {
      OutsiderStepKeepsInv(s, i, Ended(false));
    } else if s.lease.None? {
      TakeLeaseKeepsInv(s, i);
    } else {
      StopKeepsInv(s, s.present);
      OutsiderStepKeepsInv(StopLease(s), i, Waiting(s.lease));
    }
  }

  lemma TopKeepsInv(s: Session, i: nat)
    requires Inv(s) && i < |s.pulls| && s.pulls[i].pc.Top?
    ensures Inv(Local(s, i))
  {
    assert s.lease == Some(i);
    HolderStepKeepsInv(s, Local(s, i), i);
  }

  lemma StoringKeepsInv(s: Session, i: nat)
    requires Inv(s) && i < |s.pulls| && s.pulls[i].pc.Storing?
    ensures Inv(Local(s, i))
  {
    assert s.lease == Some(i);
    HolderStepKeepsInv(s, Local(s, i), i);
  }

  lemma EofKeepsInv(s: Session, i: nat)
    requires Inv(s) && i < |s.pulls| && s.pulls[i].pc == After(Eof)
    ensures Inv(Local(s, i))
  {
    assert s.lease == Some(i) && PullInv(s, After(Eof)) && InHand(s) == [];
    assert s.acked == s.produced by {
      assert s.produced[..s.read] == s.produced;
      assert s.acked + [] + [] == s.acked;
    }
    HolderStepKeepsInv(s, Local(s, i), i);
  }

  lemma GiveUpKeepsInv(s: Session, i: nat)
    requires Inv(s) && i < |s.pulls| && s.lease == Some(i) && InHand(s) == []
    ensures Inv(SetPc(s, i, Ending(false)))
  {
    HolderStepKeepsInv(s, SetPc(s, i, Ending(false)), i);
  }

  lemma AfterKeepsInv(s: Session, i: nat)
    requires Inv(s) && i < |s.pulls| && s.pulls[i].pc.After? && s.pulls[i].pc.err != Eof
    ensures Inv(Local(s, i))
  {
    assert s.lease == Some(i) && InHand(s) == [];
    if s.pulls[i].pc.err == Broken {
      StopKeepsInv(s, false);
      GiveUpKeepsInv(StopLease(s).(present := false), i);
    } else if s.pulls[i].pc.err == Deadline {
      GiveUpKeepsInv(s, i);
    } else {
      HolderStepKeepsInv(s, Local(s, i), i);
    }
  }

  lemma LocalKeepsInv(s: Session, i: nat)
    requires Inv(s) && i < |s.pulls|
    ensures Inv(Local(s, i))
  {
    match s.pulls[i].pc
    case Waiting(_) => BeginKeepsInv(s, i);
    case Top => TopKeepsInv(s, i);
    case Storing(_, _) => StoringKeepsInv(s, i);
    case After(err) => if err == Eof { EofKeepsInv(s, i); } else { AfterKeepsInv(s, i); }
    case Ending(_) => EndKeepsInv(s, i);
    case _ =>
  }

  /** The steps in which the lease holder hears from the pipe or from its response. */
  lemma HeaderKeepsInv(s: Session, a: Action)
    requires Inv(s) && a.HeaderDone?
    ensures Inv(Apply(s, a))
  {
    if Apply(s, a) != s {
      assert s.lease == Some(a.i);
      HolderStepKeepsInv(s, Apply(s, a), a.i);
    }
  }

  lemma ReadKeepsInv(s: Session, a: Action)
    requires Inv(s) && a.ReadDone?
    ensures Inv(Apply(s, a))
  {
    if Apply(s, a) != s {
      assert s.lease == Some(a.i);
      assert s.produced[..s.read + a.n] == s.produced[..s.read] + s.produced[s.read..s.read + a.n];
      HolderStepKeepsInv(s, Apply(s, a), a.i);
    }
  }

  lemma SendKeepsInv(s: Session, a: Action)
    requires Inv(s) && a.SendDone?
    ensures Inv(Apply(s, a))
  {
    var s' := Apply(s, a);
    if s' != s {
      assert s.lease == Some(a.i);
      assert s.acked + s.pending + [] == s.acked + s.pending == s'.acked + s'.pending + [];
      HolderStepKeepsInv(s, s', a.i);
    }
  }

  lemma ReplyKeepsInv(s: Session, a: Action)
    requires Inv(s) && (a.HeaderDone? || a.ReadDone? || a.SendDone?)
    ensures Inv(Apply(s, a))
  {
    if a.HeaderDone? {
      HeaderKeepsInv(s, a);
    } else if a.ReadDone? {
      ReadKeepsInv(s, a);
    } else {
      SendKeepsInv(s, a);
    }
  }

  lemma EnvironmentKeepsInv(s: Session, a: Action)
    requires Inv(s) && (a.NewPull? || a.Produce? || a.FinishTunnel? || a.CloseUplink? || a.CloseSession?)
    ensures Inv(Apply(s, a))
  {
    if a.Produce? {
      assert (s.produced + a.data)[..s.read] == s.produced[..s.read];
    } else if a.CloseSession? {
      StopKeepsInv(s, false);
    } else {
      assert InHand(Apply(s, a)) == InHand(s);
    }
  }

  lemma {:induction false} ReachableInv(actions: seq<Action>)
    ensures Inv(Exec(actions))
  {
    if actions != [] {
      ReachableInv(actions[..|actions| - 1]);
      var s, a := Exec(actions[..|actions| - 1]), actions[|actions| - 1];
      if a.Step? {
        if a.i < |s.pulls| { LocalKeepsInv(s, a.i); }
      } else if a.HeaderDone? || a.ReadDone? || a.SendDone? {
        ReplyKeepsInv(s, a);
      } else {
        EnvironmentKeepsInv(s, a);
      }
    }
  }

  // ---------------------------------------------------------------------------
  // Main results

  /** At most one handler is past beginSessionPull at any time, so at most one reads the pipe. */
  lemma OnePullAtATime(actions: seq<Action>, i: nat, j: nat)
    requires var s := Exec(actions); i < |s.pulls| && j < |s.pulls| && Active(s.pulls[i].pc) && Active(s.pulls[j].pc)
    ensures i == j && Exec(actions).lease == Some(i)
  {
    ReachableInv(actions);
  }

  /**
   Conservation: what was taken out of the pipe is what was acknowledged, then
   what is pending, then what the one reader still has in hand; across any
   cancelled, failed and taken-over pulls nothing is lost, repeated or reordered.
   */
  lemma DownlinkConservation(actions: seq<Action>)
    ensures var s := Exec(actions);
      && s.read <= |s.produced|
      && s.produced[..s.read] == s.acked + s.pending + InHand(s)
      && (InHand(s) != [] ==> s.pending == [])
  {
    ReachableInv(actions);
  }

  /** A response that carries the end-of-stream trailer is only ever sent when everything was acknowledged. */
  lemma EofOnlyAfterAll(actions: seq<Action>, i: nat)
    requires i < |Exec(actions).pulls|
    requires Exec(actions).pulls[i].pc == Ending(true) || Exec(actions).pulls[i].pc == Ended(true)
    ensures var s := Exec(actions); s.finished && s.acked == s.produced && s.pending == []
  {
    ReachableInv(actions);
    var s := Exec(actions);
    assert s.produced[..s.read] == s.produced;
    assert |s.acked + s.pending + InHand(s)| == |s.acked|;
  }
}
