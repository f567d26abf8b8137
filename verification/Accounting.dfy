/**
 RuntimeServices: users, traffic counters, pending reports and the process-wide
 baselines that outlive a runtime. State is what the service lock protects.
 */
module Accounting {
  import opened Common
  import opened Panel

  datatype Total = Total(up: nat, down: nat)
  datatype Report = Report(uid: int, up: nat, down: nat, force: bool)
  datatype Pending = Pending(total: Total, reported: Report)

  datatype State = State(
    users: map<int, User>, byUuid: map<Uuid, int>, counters: map<int, Total>, pending: map<int, Pending>,
    connections: map<int, set<nat>>, trafficUsers: set<int>, nextSession: nat)

  /** The committed totals of one tag. */
  type Base = map<int, Total>

  function Find<V>(m: map<int, V>, k: int): Option<V> {
    if k in m then Some(m[k]) else None
  }

  function TotalOf(m: map<int, Total>, uid: int): Total {
    if uid in m then m[uid] else Total(0, 0)
  }

  /** trafficDelta. */
  function Delta(current: int, committed: nat): nat {
    if current < 0 then 0 else if current < committed then current else current - committed
  }

  // ---------------------------------------------------------------------------
  // One operation at a time

  function Fresh(): State { State(map[], map[], map[], map[], map[], {}, 0) }

  function WithCounter(s: State, uid: int): State {
    if uid in s.counters then s else s.(counters := s.counters[uid := Total(0, 0)])
  }

  function DeleteUser(norm: Uuid -> Uuid, s: State, user: User): State {
    s.(users := s.users - {user.id},
       byUuid := if user.id in s.users then s.byUuid - {norm(s.users[user.id].uuid)} else s.byUuid,
       trafficUsers := s.trafficUsers + {user.id}, connections := s.connections - {user.id})
  }

  function AddUser(norm: Uuid -> Uuid, s: State, user: User): State {
    var freed := if user.id in s.users && s.users[user.id].uuid != user.uuid
      then s.byUuid - {norm(s.users[user.id].uuid)} else s.byUuid;
    WithCounter(s.(users := s.users[user.id := user], byUuid := freed[norm(user.uuid) := user.id],
                   trafficUsers := s.trafficUsers + {user.id}), user.id)
  }

  function DeleteUsers(norm: Uuid -> Uuid, s: State, users: seq<User>): State {
    if users == [] then s else DeleteUser(norm, DeleteUsers(norm, s, users[..|users| - 1]), users[|users| - 1])
  }

  function AddUsers(norm: Uuid -> Uuid, s: State, users: seq<User>): State {
    if users == [] then s else AddUser(norm, AddUsers(norm, s, users[..|users| - 1]), users[|users| - 1])
  }

  function Current(s: State, user: User): bool { user.id in s.users && s.users[user.id].uuid == user.uuid }

  function SessionsOf(s: State, uid: int): set<nat> {
    if uid in s.connections then s.connections[uid] else {}
  }

  /** All sessions of the listed users. */
  function SessionsOfAll(s: State, users: seq<User>): set<nat> {
    set u, session | u in users && session in SessionsOf(s, u.id) :: session
  }

  /** A session of a deleted user is still listed or was already taken out for closing. */
  lemma {:induction false} DeletingCloses(norm: Uuid -> Uuid, s: State, deleted: seq<User>, uid: int)
    ensures var left := SessionsOf(DeleteUsers(norm, s, deleted), uid);
      left <= SessionsOf(s, uid) <= left + SessionsOfAll(s, deleted)
  {
    if deleted != [] {
      var n := |deleted| - 1;
      DeletingCloses(norm, s, deleted[..n], uid);
      assert deleted == deleted[..n] + [deleted[n]];
      assert SessionsOfAll(s, deleted[..n]) <= SessionsOfAll(s, deleted);
      assert deleted[n] in deleted;
    }
  }

  lemma MoreSessions(norm: Uuid -> Uuid, s: State, deleted: seq<User>, i: nat)
    requires i < |deleted|
    ensures SessionsOfAll(s, deleted[..i + 1])
         == SessionsOfAll(s, deleted[..i]) + SessionsOf(DeleteUsers(norm, s, deleted[..i]), deleted[i].id)
  {
    DeletingCloses(norm, s, deleted[..i], deleted[i].id);
    assert deleted[..i + 1] == deleted[..i] + [deleted[i]];
    assert deleted[i] in deleted[..i + 1];
  }

  function Open(s: State, user: User): State {
    if !Current(s, user) then s
    else WithCounter(s.(connections := s.connections[user.id := SessionsOf(s, user.id) + {s.nextSession}],
                        trafficUsers := s.trafficUsers + {user.id}, nextSession := s.nextSession + 1), user.id)
  }

  function Release(s: State, uid: int, session: nat): State {
    var left := SessionsOf(s, uid) - {session};
    s.(connections := if left == {} then s.connections - {uid} else s.connections[uid := left])
  }

  function CloseUser(s: State, uid: int): State { s.(connections := s.connections - {uid}) }

  function Added(t: Total, bytes: int, up: bool): Total {
    if bytes <= 0 then t else if up then t.(up := t.up + bytes) else t.(down := t.down + bytes)
  }

  /** A counter's atomic add, through a session that holds it. */
  function Count(s: State, uid: int, bytes: int, up: bool): State {
    if uid in s.counters then s.(counters := s.counters[uid := Added(s.counters[uid], bytes, up)]) else s
  }

  /** Recording outside a session. */
  function Record(s: State, uid: int, bytes: int, up: bool): State {
    if bytes <= 0 || uid !in s.users then s
    else Count(WithCounter(s.(trafficUsers := s.trafficUsers + {uid}), uid), uid, bytes, up)
  }

  datatype Verdict = Forget | Keep | Send(entry: Pending)

  /** What one report cycle decides for one candidate. */
  function Judge(s: State, base: Base, min: int, uid: int): Verdict {
    if uid !in s.counters then Keep
    else
      var c, b := s.counters[uid], TotalOf(base, uid);
      var up, down := Delta(c.up, b.up), Delta(c.down, b.down);
      if up == 0 && down == 0 then (if SessionsOf(s, uid) == {} then Forget else Keep)
      else if up + down <= (if uid in s.users && min > 0 then min * 1000 else 0) then Keep
      else Send(Pending(c, Report(uid, up, down, uid !in s.users)))
  }

  /** The pending entry of one user once the candidates in `done` have been judged. */
  function PendingAt(s: State, base: Base, min: int, done: set<int>, uid: int): Option<Pending> {
    if uid !in done then Find(s.pending, uid)
    else match Judge(s, base, min, uid)
      case Forget => None
      case Keep => Find(s.pending, uid)
      case Send(entry) => Some(entry)
  }

  function AfterTraffic(s: State, base: Base, min: int): State {
    s.(trafficUsers := (set u | u in s.trafficUsers && !Judge(s, base, min, u).Forget?),
       pending := map u | u in s.pending.Keys + s.trafficUsers && PendingAt(s, base, min, s.trafficUsers, u).Some?
                  :: PendingAt(s, base, min, s.trafficUsers, u).value)
  }

  /** LoadOrStore leaves a zero baseline for every candidate it looked up. */
  function BaseAfterTraffic(s: State, base: Base): Base {
    base + map u | u in s.trafficUsers && u in s.counters && u !in base :: Total(0, 0)
  }

  /** Whether a commit of this item is the exact pending snapshot. */
  predicate Effective(s: State, item: Report) {
    item.uid in s.pending && s.pending[item.uid].reported == item
  }

  function CommitItem(s: State, base: Base, item: Report): (State, Base) {
    if Effective(s, item) then (s.(pending := s.pending - {item.uid}), base[item.uid := s.pending[item.uid].total])
    else (s, base)
  }

  function CommitItems(s: State, base: Base, items: seq<Report>): (State, Base) {
    if items == [] then (s, base)
    else
      var (t, b) := CommitItems(s, base, items[..|items| - 1]);
      CommitItem(t, b, items[|items| - 1])
  }

  function ByUuid(norm: Uuid -> Uuid, s: State, uuid: Uuid): Option<User> {
    if norm(uuid) !in s.byUuid || s.byUuid[norm(uuid)] !in s.users then None
    else
      var user := s.users[s.byUuid[norm(uuid)]];
      if norm(user.uuid) == norm(uuid) then Some(user) else None
  }

  // ---------------------------------------------------------------------------
  // The service

  /** committedTraffic, for one tag. */
  class Baselines {
    var committed: Base

    constructor ()
      ensures committed == map[]
    {
      committed := map[];
    }
  }

  class RuntimeServices {
    const norm: Uuid -> Uuid
    const baselines: Baselines
    var users: map<int, User>
    var usersByUUID: map<Uuid, int>
    var counters: map<int, Total>
    var pending: map<int, Pending>
    var connections: map<int, set<nat>>
    var trafficUsers: set<int>
    var nextSession: nat

    function View(): State
      reads this
    {
      State(users, usersByUUID, counters, pending, connections, trafficUsers, nextSession)
    }

    constructor (norm: Uuid -> Uuid, baselines: Baselines)
      ensures this.norm == norm && this.baselines == baselines && View() == Fresh()
    {
      this.norm, this.baselines := norm, baselines;
      users, usersByUUID, counters, pending, connections, trafficUsers := map[], map[], map[], map[], map[], {};
      nextSession := 0;
    }

    method SyncUsers(deleted: seq<User>, added: seq<User>) returns (closing: set<nat>)
      modifies this
      ensures View() == AddUsers(norm, DeleteUsers(norm, old(View()), deleted), added)
      ensures closing == SessionsOfAll(old(View()), deleted)
    {
      closing := {};
      for i := 0 to |deleted|
        invariant View() == DeleteUsers(norm, old(View()), deleted[..i])
        invariant closing == SessionsOfAll(old(View()), deleted[..i])
      {
        assert deleted[..i + 1][..i] == deleted[..i];
        var user := deleted[i];
        MoreSessions(norm, old(View()), deleted, i);
        if user.id in users {
          usersByUUID := usersByUUID - {norm(users[user.id].uuid)};
        }
        users := users - {user.id};
        trafficUsers := trafficUsers + {user.id};
        closing := closing + SessionsOf(View(), user.id);
        connections := connections - {user.id};
      }
      assert deleted[..|deleted|] == deleted;
      ghost var mid := View();
      for i := 0 to |added|
        invariant View() == AddUsers(norm, mid, added[..i])
      {
        assert added[..i + 1][..i] == added[..i];
        var user := added[i];
        if user.id in users && users[user.id].uuid != user.uuid {
          usersByUUID := usersByUUID - {norm(users[user.id].uuid)};
        }
        users := users[user.id := user];
        usersByUUID := usersByUUID[norm(user.uuid) := user.id];
        Counter(user.id);
        trafficUsers := trafficUsers + {user.id};
      }
      assert added[..|added|] == added;
    }

    /** counterLocked. */
    method Counter(uid: int)
      modifies this`counters
      ensures View() == WithCounter(old(View()), uid)
    {
      if uid !in counters { counters := counters[uid := Total(0, 0)]; }
    }

    method UserByUUID(uuid: Uuid) returns (user: Option<User>)
      ensures user == ByUuid(norm, View(), uuid)
    {
      if norm(uuid) !in usersByUUID { return None; }
      var uid := usersByUUID[norm(uuid)];
      if uid !in users { return None; }
      user := if norm(users[uid].uuid) == norm(uuid) then Some(users[uid]) else None;
    }

    /** openSession once the limiter accepted: the check under the lock is the one that counts. */
    method OpenSession(user: User) returns (session: Option<nat>)
      modifies this
      ensures View() == Open(old(View()), user) && session.Some? == Current(old(View()), user)
      ensures session.Some? <==> user.id in old(users) && old(users)[user.id].uuid == user.uuid
      ensures if session.None? then View() == old(View()) else
        && session.value in SessionsOf(View(), user.id) && user.id in counters && user.id in trafficUsers
        && SessionsOf(View(), user.id) == old(SessionsOf(View(), user.id)) + {session.value}
        && forall id :: TotalOf(counters, id) == old(TotalOf(counters, id))
    {
      if user.id !in users || users[user.id].uuid != user.uuid { return None; }
      session := Some(nextSession);
      Counter(user.id);
      connections := connections[user.id := SessionsOf(View(), user.id) + {nextSession}];
      trafficUsers := trafficUsers + {user.id};
      nextSession := nextSession + 1;
    }

    method ReleaseSession(uid: int, session: nat)
      modifies this`connections
      ensures View() == Release(old(View()), uid, session)
    {
      var left := SessionsOf(View(), uid) - {session};
      if left == {} {
        connections := connections - {uid};
      } else {
        connections := connections[uid := left];
      }
    }

    method CloseAllConnections()
      modifies this`connections
      ensures View() == old(View()).(connections := map[])
    {
      connections := map[];
    }

    method RecordBytes(uid: int, bytes: int, up: bool) returns (ok: bool)
      modifies this
      ensures View() == Record(old(View()), uid, bytes, up) && ok == (bytes > 0 && uid in users)
      ensures var t := TotalOf(old(counters), uid);
        TotalOf(counters, uid) == if !ok then t else if up then Total(t.up + bytes, t.down) else Total(t.up, t.down + bytes)
      ensures forall id | id != uid :: TotalOf(counters, id) == TotalOf(old(counters), id)
    {
      if bytes <= 0 || uid !in users { return false; }
      Counter(uid);
      trafficUsers := trafficUsers + {uid};
      var c := counters[uid];
      counters := counters[uid := if up then Total(c.up + bytes, c.down) else Total(c.up, c.down + bytes)];
      ok := true;
    }

    /** Traffic: each candidate is judged once, in whatever order the map yields them. */
    method Traffic(min: int) returns (result: seq<Report>)
      modifies this, baselines
      ensures View() == AfterTraffic(old(View()), old(baselines.committed), min)
      ensures baselines.committed == BaseAfterTraffic(old(View()), old(baselines.committed))
      ensures Reports(old(View()), old(baselines.committed), min, old(trafficUsers), result)
    {
      result := [];
      ghost var s, base := View(), baselines.committed;
      var todo := trafficUsers;
      ghost var done := {};
      JudgedNone(s, base, min);
      while todo != {}
        invariant done + todo == s.trafficUsers && done !! todo
        invariant Judged(s, base, min, done, View(), baselines.committed, result)
        decreases |todo|
      {
        NotEmpty(todo);
        var uid :| uid in todo;
        todo := todo - {uid};
        result := TrafficOne(uid, min, result, s, base, done);
        done := done + {uid};
      }
      assert done == s.trafficUsers;
      JudgedAll(s, base, min, View(), baselines.committed, result);
    }

    method TrafficOne(uid: int, min: int, result0: seq<Report>, ghost s: State, ghost base: Base, ghost done: set<int>)
      returns (result: seq<Report>)
      requires Judged(s, base, min, done, View(), baselines.committed, result0) && uid in s.trafficUsers && uid !in done
      modifies this`trafficUsers, this`pending, baselines
      ensures Judged(s, base, min, done + {uid}, View(), baselines.committed, result)
    {
      ghost var now, baseNow := View(), baselines.committed;
      SameVerdict(s, base, min, done, uid, now, baseNow, result0);
      result := result0;
      var verdict := JudgeOne(uid, min);
      match verdict {
        case Forget =>
          trafficUsers := trafficUsers - {uid};
          pending := pending - {uid};
        case Keep =>
        case Send(entry) =>
          pending := pending[uid := entry];
          result := result + [entry.reported];
      }
      JudgedStep(s, base, min, done, uid, now, baseNow, result0);
    }

    /** The loads and comparisons of one iteration. */
    method JudgeOne(uid: int, min: int) returns (verdict: Verdict)
      modifies baselines
      ensures verdict == Judge(View(), old(baselines.committed), min, uid)
      ensures baselines.committed
           == if uid in counters && uid !in old(baselines.committed) then old(baselines.committed)[uid := Total(0, 0)]
              else old(baselines.committed)
    {
      if uid !in counters { return Keep; }
      var current := counters[uid];
      if uid !in baselines.committed { baselines.committed := baselines.committed[uid := Total(0, 0)]; }
      var committed := baselines.committed[uid];
      var up, down := Delta(current.up, committed.up), Delta(current.down, committed.down);
      if up == 0 && down == 0 {
        return if SessionsOf(View(), uid) == {} then Forget else Keep;
      }
      var threshold := if min > 0 then min * 1000 else 0;
      if uid !in users { threshold := 0; }
      if up + down <= threshold { return Keep; }
      verdict := Send(Pending(current, Report(uid, up, down, uid !in users)));
    }

    method CommitTraffic(items: seq<Report>)
      modifies this`pending, baselines
      ensures (View(), baselines.committed) == CommitItems(old(View()), old(baselines.committed), items)
    {
      for i := 0 to |items|
        invariant (View(), baselines.committed) == CommitItems(old(View()), old(baselines.committed), items[..i])
      {
        assert items[..i + 1][..i] == items[..i];
        var item := items[i];
        if item.uid in pending && pending[item.uid].reported == item {
          baselines.committed := baselines.committed[item.uid := pending[item.uid].total];
          pending := pending - {item.uid};
        }
      }
      assert items[..|items|] == items;
    }
  }

  /** One report for every candidate that has something to send, and nothing else. */
  ghost predicate Reports(s: State, base: Base, min: int, done: set<int>, result: seq<Report>) {
    && (forall i | 0 <= i < |result| ::
          result[i].uid in done && Judge(s, base, min, result[i].uid).Send?
          && Judge(s, base, min, result[i].uid).entry.reported == result[i])
    && (forall i, j | 0 <= i < j < |result| :: result[i].uid != result[j].uid)
    && (forall u | u in done && Judge(s, base, min, u).Send? :: Judge(s, base, min, u).entry.reported in result)
  }

  /** A report cycle in progress: the candidates in `done` have been judged, the others are as they were. */
  ghost predicate Judged(s: State, base: Base, min: int, done: set<int>, now: State, baseNow: Base, result: seq<Report>) {
    && done <= s.trafficUsers && now == s.(trafficUsers := now.trafficUsers, pending := now.pending)
    && (forall u :: u in now.trafficUsers <==> u in s.trafficUsers && !(u in done && Judge(s, base, min, u).Forget?))
    && (forall u :: Find(now.pending, u) == PendingAt(s, base, min, done, u))
    && baseNow == BaseAfterTraffic(s.(trafficUsers := done), base)
    && Reports(s, base, min, done, result)
  }

  /** State, baselines and report list after judging one more candidate. */
  function Judging(now: State, baseNow: Base, uid: int, verdict: Verdict, result: seq<Report>): (State, Base, seq<Report>) {
    var base' := if uid in now.counters && uid !in baseNow then baseNow[uid := Total(0, 0)] else baseNow;
    match verdict
    case Forget => (now.(trafficUsers := now.trafficUsers - {uid}, pending := now.pending - {uid}), base', result)
    case Keep => (now, base', result)
    case Send(entry) => (now.(pending := now.pending[uid := entry]), base', result + [entry.reported])
  }

  lemma JudgedNone(s: State, base: Base, min: int)
    ensures Judged(s, base, min, {}, s, base, [])
  {
    assert BaseAfterTraffic(s.(trafficUsers := {}), base) == base;
  }

  lemma SameVerdict(s: State, base: Base, min: int, done: set<int>, uid: int, now: State, baseNow: Base, result: seq<Report>)
    requires Judged(s, base, min, done, now, baseNow, result)
    ensures Judge(now, baseNow, min, uid) == Judge(s, base, min, uid)
  {
    assert TotalOf(baseNow, uid) == TotalOf(base, uid);
  }

  lemma JudgedStep(s: State, base: Base, min: int, done: set<int>, uid: int, now: State, baseNow: Base, result: seq<Report>)
    requires Judged(s, base, min, done, now, baseNow, result) && uid in s.trafficUsers && uid !in done
    ensures var (t, b, r) := Judging(now, baseNow, uid, Judge(s, base, min, uid), result);
      Judged(s, base, min, done + {uid}, t, b, r)
  {
    var (t, b, r) := Judging(now, baseNow, uid, Judge(s, base, min, uid), result);
    BaseStep(s, base, done, uid);
    forall u ensures Find(t.pending, u) == PendingAt(s, base, min, done + {uid}, u) {
      assert Find(now.pending, u) == PendingAt(s, base, min, done, u);
    }
    ReportsStep(s, base, min, done, uid, result);
  }

  lemma BaseStep(s: State, base: Base, done: set<int>, uid: int)
    ensures var b := BaseAfterTraffic(s.(trafficUsers := done), base);
      (if uid in s.counters && uid !in b then b[uid := Total(0, 0)] else b)
      == BaseAfterTraffic(s.(trafficUsers := done + {uid}), base)
  {
  }

  lemma ReportsStep(s: State, base: Base, min: int, done: set<int>, uid: int, result: seq<Report>)
    requires Reports(s, base, min, done, result) && uid !in done
    ensures var v := Judge(s, base, min, uid);
      Reports(s, base, min, done + {uid}, if v.Send? then result + [v.entry.reported] else result)
  {
    var v := Judge(s, base, min, uid);
    if v.Send? {
      var r := result + [v.entry.reported];
      assert r[|result|] == v.entry.reported;
      forall u | u in done + {uid} && Judge(s, base, min, u).Send? ensures Judge(s, base, min, u).entry.reported in r {
      }
    }
  }

  lemma JudgedAll(s: State, base: Base, min: int, now: State, baseNow: Base, result: seq<Report>)
    requires Judged(s, base, min, s.trafficUsers, now, baseNow, result)
    ensures now == AfterTraffic(s, base, min) && baseNow == BaseAfterTraffic(s, base)
  {
    var want := AfterTraffic(s, base, min);
    forall u ensures Find(now.pending, u) == Find(want.pending, u) {
      assert Find(now.pending, u) == PendingAt(s, base, min, s.trafficUsers, u);
    }
    SameEntries(now.pending, want.pending);
    forall u ensures u in now.trafficUsers <==> u in want.trafficUsers {
      assert u in now.trafficUsers <==> u in s.trafficUsers && !Judge(s, base, min, u).Forget?;
    }
    assert s.(trafficUsers := s.trafficUsers) == s;
  }

  lemma NotEmpty(todo: set<int>)
    requires todo != {}
    ensures exists u :: u in todo
  {
    assert (forall u :: u !in todo) ==> todo == {};
  }

  lemma SameEntries<V>(m: map<int, V>, n: map<int, V>)
    requires forall k :: Find(m, k) == Find(n, k)
    ensures m == n
  {
    forall k ensures k in m <==> k in n { assert Find(m, k) == Find(n, k); }
    forall k | k in m ensures m[k] == n[k] { assert Find(m, k) == Find(n, k); }
  }
}
