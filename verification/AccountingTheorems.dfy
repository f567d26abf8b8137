/**
 What the panel is told, over every run of one tag: any number of runtimes in
 sequence, any users, sessions, reports and commits, stale or repeated. The
 ledger follows one user in one direction.
 */
module AccountingTheorems {
  import opened Common
  import opened Panel
  import opened Accounting

  datatype Action =
    | Replace
    | Sync(deleted: seq<User>, added: seq<User>)
    | OpenSession(user: User)
    | ReleaseSession(uid: int, session: nat)
    | CloseUser(uid: int)
    | RecordBytes(uid: int, bytes: int, up: bool)
    | SessionBytes(uid: int, bytes: int, up: bool)
    | ReportCycle(min: int)
    | Commit(items: seq<Report>)

  /**
   `given` are the byte counts handed to the current runtime for this user and
   direction, one by one; `start` is the baseline it found, `first` the total at
   its first commit, `committed` the sum of its committed reports; `past...` are
   the sums of those and of the bytes given to the runtimes before it.
   */
  datatype Ledger = Ledger(
    given: seq<nat>, start: nat, first: Option<nat>, committed: nat, pastRecorded: nat, pastCommitted: nat)

  function Sum(given: seq<nat>): nat {
    if given == [] then 0 else Sum(given[..|given| - 1]) + given[|given| - 1]
  }

  /** Bytes handed over for user `id` in one direction, entered if they are this ledger's and were not refused. */
  function Enter(led: Ledger, mine: bool, taken: bool, bytes: int): Ledger {
    if mine && taken && bytes > 0 then led.(given := led.given + [bytes]) else led
  }

  datatype World = World(s: State, base: Base, led: Ledger)

  function Side(t: Total, up: bool): nat { if up then t.up else t.down }

  function Reported(r: Report, up: bool): nat { if up then r.up else r.down }

  function CommitOne(w: World, item: Report, uid: int, up: bool): World {
    var (t, b) := CommitItem(w.s, w.base, item);
    if !Effective(w.s, item) || item.uid != uid then World(t, b, w.led)
    else
      var total := Side(w.s.pending[uid].total, up);
      World(t, b, w.led.(committed := w.led.committed + Reported(item, up),
                         first := if w.led.first.None? then Some(total) else w.led.first))
  }

  function CommitAll(w: World, items: seq<Report>, uid: int, up: bool): World {
    if items == [] then w else CommitOne(CommitAll(w, items[..|items| - 1], uid, up), items[|items| - 1], uid, up)
  }

  /** The ledger only watches: state and baselines change as the service's own commit changes them. */
  lemma {:induction false} CommitAllIsCommit(w: World, items: seq<Report>, uid: int, up: bool)
    ensures (CommitAll(w, items, uid, up).s, CommitAll(w, items, uid, up).base) == CommitItems(w.s, w.base, items)
  {
    if items != [] { CommitAllIsCommit(w, items[..|items| - 1], uid, up); }
  }

  function Apply(norm: Uuid -> Uuid, w: World, uid: int, up: bool, a: Action): World {
    match a
    case Replace =>
      World(Fresh(), w.base, Ledger([], Side(TotalOf(w.base, uid), up), None, 0,
        w.led.pastRecorded + Sum(w.led.given), w.led.pastCommitted + w.led.committed))
    case Sync(deleted, added) => w.(s := AddUsers(norm, DeleteUsers(norm, w.s, deleted), added))
    case OpenSession(user) => w.(s := Open(w.s, user))
    case ReleaseSession(id, session) => w.(s := Release(w.s, id, session))
    case CloseUser(id) => w.(s := Accounting.CloseUser(w.s, id))
    case RecordBytes(id, bytes, side) =>
      w.(s := Record(w.s, id, bytes, side), led := Enter(w.led, id == uid && side == up, id in w.s.users, bytes))
    case SessionBytes(id, bytes, side) =>
      w.(s := Count(w.s, id, bytes, side), led := Enter(w.led, id == uid && side == up, id in w.s.counters, bytes))
    case ReportCycle(min) => w.(s := AfterTraffic(w.s, w.base, min), base := BaseAfterTraffic(w.s, w.base))
    case Commit(items) => CommitAll(w, items, uid, up)
  }

  /** The first runtime of a tag whose baselines are `base`. */
  function Start(base: Base, uid: int, up: bool): World {
    World(Fresh(), base, Ledger([], Side(TotalOf(base, uid), up), None, 0, 0, 0))
  }

  function Exec(norm: Uuid -> Uuid, w: World, uid: int, up: bool, actions: seq<Action>): World {
    if actions == [] then w
    else Apply(norm, Exec(norm, w, uid, up, actions[..|actions| - 1]), uid, up, actions[|actions| - 1])
  }

  /** All the current runtime was told of this user's traffic in this direction. */
  function Recorded(w: World): nat { Sum(w.led.given) }

  function Counter(w: World, uid: int, up: bool): nat { Side(TotalOf(w.s.counters, uid), up) }

  function Uncommitted(w: World, uid: int, up: bool): nat {
    Delta(Counter(w, uid, up), Side(TotalOf(w.base, uid), up))
  }

  // ---------------------------------------------------------------------------
  // Invariant

  /** A pending entry is a snapshot of the past, priced against the baseline that still stands. */
  ghost predicate PendingOk(s: State, base: Base, uid: int) {
    uid in s.pending ==>
      var p, c, b := s.pending[uid], TotalOf(s.counters, uid), TotalOf(base, uid);
      && p.total.up <= c.up && p.total.down <= c.down && p.reported.uid == uid
      && p.reported.up == Delta(p.total.up, b.up) && p.reported.down == Delta(p.total.down, b.down)
  }

  /** Before the first commit the baseline is the one found; after it, it is what was reported plus what was skipped. */
  ghost predicate LedgerOk(led: Ledger, recorded: nat, base: nat) {
    && led.pastCommitted <= led.pastRecorded
    && match led.first
       case None => base == led.start && led.committed == 0
       case Some(first) => first <= base <= recorded && led.committed + (if first >= led.start then led.start else 0) == base
  }

  ghost predicate LedgerInv(w: World, uid: int, up: bool) {
    && PendingOk(w.s, w.base, uid) && LedgerOk(w.led, Counter(w, uid, up), Side(TotalOf(w.base, uid), up))
    && (uid in w.s.pending && w.led.first.Some? ==> Side(TotalOf(w.base, uid), up) <= Side(w.s.pending[uid].total, up))
  }

  /** The counter holds exactly the bytes handed over, and the ledger agrees with it. */
  ghost predicate Inv(w: World, uid: int, up: bool) {
    LedgerInv(w, uid, up) && Counter(w, uid, up) == Recorded(w)
  }

  /** Operations that only let counters grow and leave pending entries alone. */
  ghost predicate Grows(s: State, t: State, uid: int) {
    && (uid in t.pending ==> uid in s.pending && t.pending[uid] == s.pending[uid])
    && TotalOf(s.counters, uid).up <= TotalOf(t.counters, uid).up
    && TotalOf(s.counters, uid).down <= TotalOf(t.counters, uid).down
  }

  lemma GrowingKeepsInv(w: World, t: State, uid: int, up: bool)
    requires LedgerInv(w, uid, up) && Grows(w.s, t, uid)
    ensures LedgerInv(w.(s := t), uid, up)
  {
  }

  lemma {:induction false} DeletingGrows(norm: Uuid -> Uuid, s: State, users: seq<User>, uid: int)
    ensures Grows(s, DeleteUsers(norm, s, users), uid)
  {
    if users != [] { DeletingGrows(norm, s, users[..|users| - 1], uid); }
  }

  lemma {:induction false} AddingGrows(norm: Uuid -> Uuid, s: State, users: seq<User>, uid: int)
    ensures Grows(s, AddUsers(norm, s, users), uid)
  {
    if users != [] { AddingGrows(norm, s, users[..|users| - 1], uid); }
  }

  lemma TrafficKeepsInv(w: World, min: int, uid: int, up: bool)
    requires LedgerInv(w, uid, up)
    ensures LedgerInv(w.(s := AfterTraffic(w.s, w.base, min), base := BaseAfterTraffic(w.s, w.base)), uid, up)
  {
    var t, b := AfterTraffic(w.s, w.base, min), BaseAfterTraffic(w.s, w.base);
    assert TotalOf(b, uid) == TotalOf(w.base, uid);
    if uid in t.pending {
      assert Some(t.pending[uid]) == PendingAt(w.s, w.base, min, w.s.trafficUsers, uid);
    }
  }

  lemma CommitOneKeepsInv(w: World, item: Report, uid: int, up: bool)
    requires LedgerInv(w, uid, up)
    ensures LedgerInv(CommitOne(w, item, uid, up), uid, up)
  {
    var v := CommitOne(w, item, uid, up);
    if item.uid != uid {
      assert TotalOf(v.base, uid) == TotalOf(w.base, uid);
    }
  }

  lemma {:induction false} CommitAllKeepsInv(w: World, items: seq<Report>, uid: int, up: bool)
    requires LedgerInv(w, uid, up)
    ensures LedgerInv(CommitAll(w, items, uid, up), uid, up)
  {
    if items != [] {
      CommitAllKeepsInv(w, items[..|items| - 1], uid, up);
      CommitOneKeepsInv(CommitAll(w, items[..|items| - 1], uid, up), items[|items| - 1], uid, up);
    }
  }

  lemma SyncKeepsInv(norm: Uuid -> Uuid, w: World, deleted: seq<User>, added: seq<User>, uid: int, up: bool)
    requires LedgerInv(w, uid, up)
    ensures LedgerInv(w.(s := AddUsers(norm, DeleteUsers(norm, w.s, deleted), added)), uid, up)
  {
    var mid := DeleteUsers(norm, w.s, deleted);
    DeletingGrows(norm, w.s, deleted, uid);
    GrowingKeepsInv(w, mid, uid, up);
    AddingGrows(norm, mid, added, uid);
    GrowingKeepsInv(w.(s := mid), AddUsers(norm, mid, added), uid, up);
  }

  lemma OpenKeepsInv(w: World, user: User, uid: int, up: bool)
    requires LedgerInv(w, uid, up)
    ensures LedgerInv(w.(s := Open(w.s, user)), uid, up)
  {
    GrowingKeepsInv(w, Open(w.s, user), uid, up);
  }

  lemma ReleaseKeepsInv(w: World, id: int, session: nat, uid: int, up: bool)
    requires LedgerInv(w, uid, up)
    ensures LedgerInv(w.(s := Release(w.s, id, session)), uid, up)
  {
    GrowingKeepsInv(w, Release(w.s, id, session), uid, up);
  }

  lemma RecordKeepsInv(w: World, id: int, bytes: int, side: bool, uid: int, up: bool)
    requires LedgerInv(w, uid, up)
    ensures LedgerInv(w.(s := Record(w.s, id, bytes, side)), uid, up)
  {
    GrowingKeepsInv(w, Record(w.s, id, bytes, side), uid, up);
  }

  lemma CountKeepsInv(w: World, id: int, bytes: int, side: bool, uid: int, up: bool)
    requires LedgerInv(w, uid, up)
    ensures LedgerInv(w.(s := Count(w.s, id, bytes, side)), uid, up)
  {
    GrowingKeepsInv(w, Count(w.s, id, bytes, side), uid, up);
  }

  lemma StepKeepsLedger(norm: Uuid -> Uuid, w: World, uid: int, up: bool, a: Action)
    requires Inv(w, uid, up)
    ensures LedgerInv(Apply(norm, w, uid, up, a), uid, up)
  {
    match a {
      case Replace =>
      case Sync(deleted, added) => SyncKeepsInv(norm, w, deleted, added, uid, up);
      case OpenSession(user) => OpenKeepsInv(w, user, uid, up);
      case ReleaseSession(id, session) => ReleaseKeepsInv(w, id, session, uid, up);
      case CloseUser(id) => GrowingKeepsInv(w, Accounting.CloseUser(w.s, id), uid, up);
      case RecordBytes(id, bytes, side) => RecordKeepsInv(w, id, bytes, side, uid, up);
      case SessionBytes(id, bytes, side) => CountKeepsInv(w, id, bytes, side, uid, up);
      case ReportCycle(min) => TrafficKeepsInv(w, min, uid, up);
      case Commit(items) => CommitAllKeepsInv(w, items, uid, up);
    }
  }

  // ---------------------------------------------------------------------------
  // Counters hold what was handed over

  lemma {:induction false} DeletingCounts(norm: Uuid -> Uuid, s: State, users: seq<User>)
    ensures DeleteUsers(norm, s, users).counters == s.counters
  {
    if users != [] { DeletingCounts(norm, s, users[..|users| - 1]); }
  }

  lemma {:induction false} AddingCounts(norm: Uuid -> Uuid, s: State, users: seq<User>, uid: int)
    ensures TotalOf(AddUsers(norm, s, users).counters, uid) == TotalOf(s.counters, uid)
  {
    if users != [] { AddingCounts(norm, s, users[..|users| - 1], uid); }
  }

  lemma {:induction false} CommittingCounts(s: State, base: Base, items: seq<Report>)
    ensures CommitItems(s, base, items).0.counters == s.counters
  {
    if items != [] { CommittingCounts(s, base, items[..|items| - 1]); }
  }

  lemma {:induction false} LedgerKeepsGiven(w: World, items: seq<Report>, uid: int, up: bool)
    ensures CommitAll(w, items, uid, up).led.given == w.led.given
  {
    if items != [] { LedgerKeepsGiven(w, items[..|items| - 1], uid, up); }
  }

  lemma EnterAdds(led: Ledger, bytes: nat)
    ensures Sum(led.given + [bytes]) == Sum(led.given) + bytes
  {
    assert (led.given + [bytes])[..|led.given|] == led.given;
  }

  lemma AddedSide(t: Total, bytes: int, side: bool, up: bool)
    ensures Side(Added(t, bytes, side), up) == Side(t, up) + if side == up && bytes > 0 then bytes else 0
  {
  }

  /** What a recording adds to the counter is what it enters in the ledger. */
  lemma RecordCounts(s: State, id: int, bytes: int, side: bool, uid: int, up: bool, led: Ledger)
    requires Side(TotalOf(s.counters, uid), up) == Sum(led.given)
    ensures Side(TotalOf(Record(s, id, bytes, side).counters, uid), up)
         == Sum(Enter(led, id == uid && side == up, id in s.users, bytes).given)
  {
    AddedSide(TotalOf(s.counters, id), bytes, side, up);
    if bytes > 0 { EnterAdds(led, bytes); }
  }

  lemma CountCounts(s: State, id: int, bytes: int, side: bool, uid: int, up: bool, led: Ledger)
    requires Side(TotalOf(s.counters, uid), up) == Sum(led.given)
    ensures Side(TotalOf(Count(s, id, bytes, side).counters, uid), up)
         == Sum(Enter(led, id == uid && side == up, id in s.counters, bytes).given)
  {
    if id in s.counters { AddedSide(s.counters[id], bytes, side, up); }
    if bytes > 0 { EnterAdds(led, bytes); }
  }

  lemma StepKeepsCounter(norm: Uuid -> Uuid, w: World, uid: int, up: bool, a: Action)
    requires Counter(w, uid, up) == Recorded(w)
    ensures Counter(Apply(norm, w, uid, up, a), uid, up) == Recorded(Apply(norm, w, uid, up, a))
  {
    match a {
      case Sync(deleted, added) =>
        DeletingCounts(norm, w.s, deleted);
        AddingCounts(norm, DeleteUsers(norm, w.s, deleted), added, uid);
      case RecordBytes(id, bytes, side) => RecordCounts(w.s, id, bytes, side, uid, up, w.led);
      case SessionBytes(id, bytes, side) => CountCounts(w.s, id, bytes, side, uid, up, w.led);
      case Commit(items) =>
        CommitAllIsCommit(w, items, uid, up);
        CommittingCounts(w.s, w.base, items);
        LedgerKeepsGiven(w, items, uid, up);
      case _ =>
    }
  }

  lemma StepKeepsInv(norm: Uuid -> Uuid, w: World, uid: int, up: bool, a: Action)
    requires Inv(w, uid, up)
    ensures Inv(Apply(norm, w, uid, up, a), uid, up)
  {
    StepKeepsLedger(norm, w, uid, up, a);
    StepKeepsCounter(norm, w, uid, up, a);
  }

  lemma {:induction false} ReachableInv(norm: Uuid -> Uuid, base: Base, uid: int, up: bool, actions: seq<Action>)
    ensures Inv(Exec(norm, Start(base, uid, up), uid, up, actions), uid, up)
  {
    if actions != [] {
      ReachableInv(norm, base, uid, up, actions[..|actions| - 1]);
      StepKeepsInv(norm, Exec(norm, Start(base, uid, up), uid, up, actions[..|actions| - 1]), uid, up, actions[|actions| - 1]);
    }
  }

  // ---------------------------------------------------------------------------
  // Theorems

  /** The panel is never told more than was recorded: by the current runtime, and by all of them together. */
  lemma NeverOverReports(norm: Uuid -> Uuid, base: Base, uid: int, up: bool, actions: seq<Action>)
    ensures var w := Exec(norm, Start(base, uid, up), uid, up, actions);
      && w.led.committed + Uncommitted(w, uid, up) <= Recorded(w)
      && w.led.pastCommitted + w.led.committed <= w.led.pastRecorded + Recorded(w)
  {
    ReachableInv(norm, base, uid, up, actions);
  }

  /** Whether the old baseline has been charged against this runtime's fresh counter. */
  predicate Charged(w: World, uid: int, up: bool) {
    match w.led.first
    case Some(first) => first >= w.led.start
    case None => Recorded(w) >= w.led.start
  }

  /**
   Exact conservation, and exactly when it fails: committed plus uncommitted is
   what was recorded unless a baseline above zero was found at the start and the
   counter had grown past it, at the first commit or, before any, now. What is
   missing then is that baseline.
   */
  lemma Conservation(norm: Uuid -> Uuid, base: Base, uid: int, up: bool, actions: seq<Action>)
    ensures var w := Exec(norm, Start(base, uid, up), uid, up, actions);
      && w.led.committed + Uncommitted(w, uid, up) + (if Charged(w, uid, up) then w.led.start else 0) == Recorded(w)
      && (w.led.committed + Uncommitted(w, uid, up) == Recorded(w) <==> w.led.start == 0 || !Charged(w, uid, up))
  {
    ReachableInv(norm, base, uid, up, actions);
  }

  /** What an item would commit: only the very snapshot that is pending now. */
  ghost predicate OnlyOld(s: State, t: State, uid: int) {
    uid in t.pending ==> uid in s.pending && t.pending[uid] == s.pending[uid]
  }

  lemma {:induction false} CommittingOnlyOld(s: State, base: Base, items: seq<Report>, uid: int)
    ensures OnlyOld(s, CommitItems(s, base, items).0, uid)
  {
    if items != [] { CommittingOnlyOld(s, base, items[..|items| - 1], uid); }
  }

  lemma StepOnlyOld(norm: Uuid -> Uuid, w: World, uid: int, up: bool, a: Action, id: int)
    requires !a.ReportCycle?
    ensures OnlyOld(w.s, Apply(norm, w, uid, up, a).s, id)
  {
    match a {
      case Sync(deleted, added) =>
        DeletingGrows(norm, w.s, deleted, id);
        AddingGrows(norm, DeleteUsers(norm, w.s, deleted), added, id);
      case Commit(items) =>
        CommitAllIsCommit(w, items, uid, up);
        CommittingOnlyOld(w.s, w.base, items, id);
      case _ =>
    }
  }

  lemma {:induction false} RunOnlyOld(norm: Uuid -> Uuid, w: World, uid: int, up: bool, later: seq<Action>, id: int)
    requires forall i | 0 <= i < |later| :: !later[i].ReportCycle?
    ensures OnlyOld(w.s, Exec(norm, w, uid, up, later).s, id)
  {
    if later != [] {
      RunOnlyOld(norm, w, uid, up, later[..|later| - 1], id);
      StepOnlyOld(norm, Exec(norm, w, uid, up, later[..|later| - 1]), uid, up, later[|later| - 1], id);
    }
  }

  /**
   A report is committed at most once: after a commit of an item, effective or
   not, committing it again changes nothing, whatever happens in between, until
   another report cycle.
   */
  lemma StaleCommitIsIgnored(norm: Uuid -> Uuid, w: World, item: Report, uid: int, up: bool, later: seq<Action>)
    requires forall i | 0 <= i < |later| :: !later[i].ReportCycle?
    ensures var v := Exec(norm, CommitOne(w, item, uid, up), uid, up, later); CommitOne(v, item, uid, up) == v
  {
    RunOnlyOld(norm, CommitOne(w, item, uid, up), uid, up, later, item.uid);
  }

  // ---------------------------------------------------------------------------
  // Nothing is stranded

  function Owed(s: State, base: Base, uid: int): (nat, nat) {
    (Delta(TotalOf(s.counters, uid).up, TotalOf(base, uid).up), Delta(TotalOf(s.counters, uid).down, TotalOf(base, uid).down))
  }

  /** Every user with bytes to report is a candidate. */
  ghost predicate Candidates(s: State, base: Base) {
    forall u | u in s.counters && Owed(s, base, u) != (0, 0) :: u in s.trafficUsers
  }

  /** What a current user has to exceed before it is reported: the configured kilobytes. */
  function Threshold(s: State, min: int, uid: int): nat {
    if uid in s.users && min > 0 then 1000 * min else 0
  }

  /**
   Exactly who a cycle reports: candidates with a counter that owe more than the
   threshold, all of what they owe, marked if they are gone. Candidates that owe
   nothing and have no session are dropped, and nobody else.
   */
  lemma CycleIff(s: State, base: Base, min: int, uid: int, result: seq<Report>)
    requires Reports(s, base, min, s.trafficUsers, result)
    ensures var (up, down) := Owed(s, base, uid);
      var t, candidate := AfterTraffic(s, base, min), uid in s.trafficUsers && uid in s.counters;
      && (candidate && up + down > Threshold(s, min, uid) <==> exists r :: r in result && r.uid == uid)
      && (forall r <- result :: r.uid == uid ==> r == Report(uid, up, down, uid !in s.users) && Effective(t, r))
      && (uid in t.trafficUsers <==> uid in s.trafficUsers && !(candidate && up + down == 0 && SessionsOf(s, uid) == {}))
  {
    if uid in s.trafficUsers && Judge(s, base, min, uid).Send? {
      assert Judge(s, base, min, uid).entry.reported in result;
    }
    forall r <- result | r.uid == uid ensures uid in s.trafficUsers && Judge(s, base, min, uid).Send? && Judge(s, base, min, uid).entry.reported == r {
      var k :| 0 <= k < |result| && result[k] == r;
    }
  }

  /** Users with sessions or a pending entry are candidates. */
  ghost predicate Linked(s: State) {
    && (forall u | u in s.connections :: s.connections[u] != {} && u in s.trafficUsers)
    && (forall u | u in s.pending :: u in s.trafficUsers)
  }

  ghost predicate Tracked(s: State, base: Base) { Candidates(s, base) && Linked(s) }

  /** Bytes on a session: the user is a candidate, or nothing is owed afterwards all the same. */
  predicate Safe(s: State, base: Base, a: Action) {
    a.SessionBytes? ==>
      a.uid in s.trafficUsers || a.uid !in s.counters || Owed(Count(s, a.uid, a.bytes, a.up), base, a.uid) == (0, 0)
  }

  /** The exact condition for one step. */
  lemma SessionBytesIff(s: State, base: Base, a: Action)
    requires Tracked(s, base) && a.SessionBytes?
    ensures Candidates(Count(s, a.uid, a.bytes, a.up), base) <==> Safe(s, base, a)
    ensures a.uid in s.connections ==> Safe(s, base, a)
  {
  }

  lemma {:induction false} DeleteKeepsTracked(norm: Uuid -> Uuid, s: State, base: Base, users: seq<User>)
    requires Tracked(s, base)
    ensures Tracked(DeleteUsers(norm, s, users), base)
  {
    if users != [] { DeleteKeepsTracked(norm, s, base, users[..|users| - 1]); }
  }

  lemma {:induction false} AddKeepsTracked(norm: Uuid -> Uuid, s: State, base: Base, users: seq<User>)
    requires Tracked(s, base)
    ensures Tracked(AddUsers(norm, s, users), base)
  {
    if users != [] { AddKeepsTracked(norm, s, base, users[..|users| - 1]); }
  }

  lemma TrafficKeepsTracked(s: State, base: Base, min: int)
    requires Tracked(s, base)
    ensures Tracked(AfterTraffic(s, base, min), BaseAfterTraffic(s, base))
  {
    var t, b := AfterTraffic(s, base, min), BaseAfterTraffic(s, base);
    forall u | u in t.counters && Owed(t, b, u) != (0, 0) ensures u in t.trafficUsers {
      TrafficKeepsOwed(s, base, min, u);
      assert !Judge(s, base, min, u).Forget?;
    }
    forall u | u in t.connections ensures u in t.trafficUsers {
      assert !Judge(s, base, min, u).Forget?;
    }
    forall u | u in t.pending ensures u in t.trafficUsers {
      assert PendingAt(s, base, min, s.trafficUsers, u).Some?;
    }
  }

  lemma TrafficKeepsOwed(s: State, base: Base, min: int, u: int)
    ensures Owed(AfterTraffic(s, base, min), BaseAfterTraffic(s, base), u) == Owed(s, base, u)
  {
    assert TotalOf(BaseAfterTraffic(s, base), u) == TotalOf(base, u);
  }

  lemma {:induction false} CommitKeepsTracked(s: State, base: Base, items: seq<Report>)
    requires Tracked(s, base)
    ensures var (t, b) := CommitItems(s, base, items); Tracked(t, b)
  {
    if items != [] { CommitKeepsTracked(s, base, items[..|items| - 1]); }
  }

  lemma StepKeepsTracked(norm: Uuid -> Uuid, w: World, uid: int, up: bool, a: Action)
    requires Tracked(w.s, w.base) && Safe(w.s, w.base, a)
    ensures var v := Apply(norm, w, uid, up, a); Tracked(v.s, v.base)
  {
    match a {
      case Replace =>
      case Sync(deleted, added) =>
        DeleteKeepsTracked(norm, w.s, w.base, deleted);
        AddKeepsTracked(norm, DeleteUsers(norm, w.s, deleted), w.base, added);
      case OpenSession(user) =>
      case ReleaseSession(id, session) =>
      case CloseUser(id) =>
      case RecordBytes(id, bytes, side) =>
      case SessionBytes(id, bytes, side) => SessionBytesIff(w.s, w.base, a);
      case ReportCycle(min) => TrafficKeepsTracked(w.s, w.base, min);
      case Commit(items) =>
        CommitAllIsCommit(w, items, uid, up);
        CommitKeepsTracked(w.s, w.base, items);
    }
  }

  // The links hold in every run, whatever sessions do.

  lemma {:induction false} DeleteKeepsLinked(norm: Uuid -> Uuid, s: State, users: seq<User>)
    requires Linked(s)
    ensures Linked(DeleteUsers(norm, s, users))
  {
    if users != [] { DeleteKeepsLinked(norm, s, users[..|users| - 1]); }
  }

  lemma {:induction false} AddKeepsLinked(norm: Uuid -> Uuid, s: State, users: seq<User>)
    requires Linked(s)
    ensures Linked(AddUsers(norm, s, users))
  {
    if users != [] { AddKeepsLinked(norm, s, users[..|users| - 1]); }
  }

  lemma {:induction false} CommitKeepsLinked(s: State, base: Base, items: seq<Report>)
    requires Linked(s)
    ensures Linked(CommitItems(s, base, items).0)
  {
    if items != [] { CommitKeepsLinked(s, base, items[..|items| - 1]); }
  }

  lemma TrafficKeepsLinked(s: State, base: Base, min: int)
    requires Linked(s)
    ensures Linked(AfterTraffic(s, base, min))
  {
    var t := AfterTraffic(s, base, min);
    forall u | u in t.connections ensures u in t.trafficUsers {
      assert !Judge(s, base, min, u).Forget?;
    }
    forall u | u in t.pending ensures u in t.trafficUsers {
      assert PendingAt(s, base, min, s.trafficUsers, u).Some?;
    }
  }

  lemma OpenKeepsLinked(s: State, user: User)
    requires Linked(s)
    ensures Linked(Open(s, user))
  {
  }

  lemma ReleaseKeepsLinked(s: State, id: int, session: nat)
    requires Linked(s)
    ensures Linked(Release(s, id, session))
  {
  }

  lemma CloseKeepsLinked(s: State, id: int)
    requires Linked(s)
    ensures Linked(Accounting.CloseUser(s, id))
  {
  }

  lemma RecordKeepsLinked(s: State, id: int, bytes: int, side: bool)
    requires Linked(s)
    ensures Linked(Record(s, id, bytes, side))
  {
  }

  lemma StepKeepsLinked(norm: Uuid -> Uuid, w: World, uid: int, up: bool, a: Action)
    requires Linked(w.s)
    ensures Linked(Apply(norm, w, uid, up, a).s)
  {
    match a {
      case Sync(deleted, added) =>
        DeleteKeepsLinked(norm, w.s, deleted);
        AddKeepsLinked(norm, DeleteUsers(norm, w.s, deleted), added);
      case ReportCycle(min) => TrafficKeepsLinked(w.s, w.base, min);
      case Commit(items) =>
        CommitAllIsCommit(w, items, uid, up);
        CommitKeepsLinked(w.s, w.base, items);
      case OpenSession(user) => OpenKeepsLinked(w.s, user);
      case ReleaseSession(id, session) => ReleaseKeepsLinked(w.s, id, session);
      case CloseUser(id) => CloseKeepsLinked(w.s, id);
      case RecordBytes(id, bytes, side) => RecordKeepsLinked(w.s, id, bytes, side);
      case _ =>
    }
  }

  lemma {:induction false} ReachableLinked(norm: Uuid -> Uuid, base: Base, uid: int, up: bool, actions: seq<Action>)
    ensures Linked(Exec(norm, Start(base, uid, up), uid, up, actions).s)
  {
    if actions != [] {
      var w := Exec(norm, Start(base, uid, up), uid, up, actions[..|actions| - 1]);
      ReachableLinked(norm, base, uid, up, actions[..|actions| - 1]);
      StepKeepsLinked(norm, w, uid, up, actions[|actions| - 1]);
    }
  }

  /** Every step of a run was safe in the state it met. */
  ghost predicate AllSafe(norm: Uuid -> Uuid, w: World, uid: int, up: bool, actions: seq<Action>) {
    forall i | 0 <= i < |actions| :: SafeAt(norm, w, uid, up, actions, i)
  }

  predicate SafeAt(norm: Uuid -> Uuid, w: World, uid: int, up: bool, actions: seq<Action>, i: nat)
    requires i < |actions|
  {
    var v := Exec(norm, w, uid, up, actions[..i]); Safe(v.s, v.base, actions[i])
  }

  ghost predicate CandidatesAt(norm: Uuid -> Uuid, w: World, uid: int, up: bool, actions: seq<Action>, i: nat)
    requires i <= |actions|
  {
    var v := Exec(norm, w, uid, up, actions[..i]); Candidates(v.s, v.base)
  }

  lemma {:induction false} ReachableTracked(norm: Uuid -> Uuid, base: Base, uid: int, up: bool, actions: seq<Action>, n: nat)
    requires n <= |actions| && AllSafe(norm, Start(base, uid, up), uid, up, actions)
    ensures var w := Exec(norm, Start(base, uid, up), uid, up, actions[..n]); Tracked(w.s, w.base)
  {
    if n > 0 {
      ReachableTracked(norm, base, uid, up, actions, n - 1);
      assert actions[..n][..n - 1] == actions[..n - 1] && SafeAt(norm, Start(base, uid, up), uid, up, actions, n - 1);
      StepKeepsTracked(norm, Exec(norm, Start(base, uid, up), uid, up, actions[..n - 1]), uid, up, actions[n - 1]);
    }
  }

  /**
   The exact condition over runs: nobody with unreported bytes is ever left out
   of the candidates if and only if every step is safe; recording on a session
   that is still registered always is.
   */
  lemma NothingIsStrandedIff(norm: Uuid -> Uuid, base: Base, uid: int, up: bool, actions: seq<Action>)
    ensures (forall i: nat | i <= |actions| :: CandidatesAt(norm, Start(base, uid, up), uid, up, actions, i))
      <==> AllSafe(norm, Start(base, uid, up), uid, up, actions)
  {
    var w := Start(base, uid, up);
    if AllSafe(norm, w, uid, up, actions) {
      forall i: nat | i <= |actions| ensures CandidatesAt(norm, w, uid, up, actions, i) {
        ReachableTracked(norm, base, uid, up, actions, i);
      }
    }
    if forall i: nat | i <= |actions| :: CandidatesAt(norm, w, uid, up, actions, i) {
      forall i | 0 <= i < |actions| ensures SafeAt(norm, w, uid, up, actions, i) {
        assert CandidatesAt(norm, w, uid, up, actions, i) && CandidatesAt(norm, w, uid, up, actions, i + 1);
        StepWasSafe(norm, base, uid, up, actions, i);
      }
    }
  }

  lemma StepWasSafe(norm: Uuid -> Uuid, base: Base, uid: int, up: bool, actions: seq<Action>, i: nat)
    requires i < |actions| && CandidatesAt(norm, Start(base, uid, up), uid, up, actions, i)
    requires CandidatesAt(norm, Start(base, uid, up), uid, up, actions, i + 1)
    ensures SafeAt(norm, Start(base, uid, up), uid, up, actions, i)
  {
    var v, a := Exec(norm, Start(base, uid, up), uid, up, actions[..i]), actions[i];
    assert actions[..i + 1][..i] == actions[..i];
    ReachableLinked(norm, base, uid, up, actions[..i]);
    if a.SessionBytes? { SessionBytesIff(v.s, v.base, a); }
  }

  /** And a report cycle without threshold then reports every user's bytes, exactly. */
  lemma NothingIsStranded(norm: Uuid -> Uuid, base: Base, uid: int, up: bool, actions: seq<Action>)
    requires AllSafe(norm, Start(base, uid, up), uid, up, actions)
    ensures var w := Exec(norm, Start(base, uid, up), uid, up, actions);
      forall u | u in w.s.counters && Owed(w.s, w.base, u) != (0, 0) ::
        u in w.s.trafficUsers &&
        Judge(w.s, w.base, 0, u) == Send(Pending(w.s.counters[u], Report(u, Owed(w.s, w.base, u).0, Owed(w.s, w.base, u).1, u !in w.s.users)))
  {
    assert actions[..|actions|] == actions;
    ReachableTracked(norm, base, uid, up, actions, |actions|);
  }

  /**
   An unsafe run: a read that was in flight when its session was closed and a
   report cycle forgot the user is counted, and no cycle looks at it until the
   user becomes a candidate again.
   */
  lemma LateBytesAreStranded(norm: Uuid -> Uuid, user: User, min: int)
    ensures var run := [Sync([], [user]), OpenSession(user), CloseUser(user.id), ReportCycle(min), SessionBytes(user.id, 1, true)];
      var w := Exec(norm, Start(map[], user.id, true), user.id, true, run);
      Uncommitted(w, user.id, true) == 1 && user.id !in w.s.trafficUsers
  {
    var w0 := Start(map[], user.id, true);
    var a1, a2, a3, a4, a5 := Sync([], [user]), OpenSession(user), CloseUser(user.id), ReportCycle(min), SessionBytes(user.id, 1, true);
    var run := [a1, a2, a3, a4, a5];
    var w1 := Apply(norm, w0, user.id, true, a1);
    OneUser(norm, w0.s, user);
    var w2 := Apply(norm, w1, user.id, true, a2);
    var w3 := Apply(norm, w2, user.id, true, a3);
    assert SessionsOf(w3.s, user.id) == {};
    var w4 := Apply(norm, w3, user.id, true, a4);
    assert Judge(w3.s, w3.base, min, user.id) == Forget;
    assert user.id !in w4.s.trafficUsers;
    var w5 := Apply(norm, w4, user.id, true, a5);
    Five(norm, w0, user.id, run);
  }

  lemma OneUser(norm: Uuid -> Uuid, s: State, user: User)
    ensures AddUsers(norm, DeleteUsers(norm, s, []), [user]) == AddUser(norm, s, user)
  {
    var one := [user];
    assert one[..|one| - 1] == [] && one[|one| - 1] == user;
    assert AddUsers(norm, s, []) == s;
  }

  lemma Five(norm: Uuid -> Uuid, w: World, uid: int, run: seq<Action>)
    requires |run| == 5
    ensures Exec(norm, w, uid, true, run) == Apply(norm, Apply(norm, Apply(norm, Apply(norm, Apply(norm, w, uid, true, run[0]),
      uid, true, run[1]), uid, true, run[2]), uid, true, run[3]), uid, true, run[4])
  {
    var r4, r3, r2, r1 := run[..4], run[..3], run[..2], run[..1];
    assert r4[..3] == r3 && r3[..2] == r2 && r2[..1] == r1 && r1[..0] == [];
    assert Exec(norm, w, uid, true, r1) == Apply(norm, w, uid, true, run[0]);
    assert Exec(norm, w, uid, true, r2) == Apply(norm, Exec(norm, w, uid, true, r1), uid, true, run[1]);
    assert Exec(norm, w, uid, true, r3) == Apply(norm, Exec(norm, w, uid, true, r2), uid, true, run[2]);
  }
}
