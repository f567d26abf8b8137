/** The device limiter: per-user limits, online IPs with their connection counts, and what the panel was told. */
module Limiter {
  import opened Common
  import opened Panel

  type Tag = string

  /** A user's limits; the bucket is its rate in bytes per second. */
  datatype LimitInfo = LimitInfo(uid: int, deviceLimit: int, speedLimit: int, bucket: Option<int>)

  datatype Online = Online(uid: int, ips: map<string, nat>)
  datatype OfflineUser = OfflineUser(tag: Tag, uid: int)
  datatype OnlineUser = OnlineUser(uid: int, ip: string)

  datatype State = State(limits: map<Tag, LimitInfo>, alive: map<int, int>, online: map<Tag, Online>,
                         reported: map<Tag, set<string>>, pending: map<Tag, int>)

  const MAPPED := "::ffff:"

  /** format.UserTag. */
  function UserTag(tag: string, uuid: Uuid): Tag { tag + "|" + uuid }

  function Trim(ip: string): string {
    if MAPPED <= ip then ip[|MAPPED|..] else ip
  }

  function Bucket(speed: int): Option<int> {
    if speed > 0 then Some(speed * 1000000 / 8) else None
  }

  function NewInfo(u: User): LimitInfo { LimitInfo(u.id, u.deviceLimit, u.speedLimit, Bucket(u.speedLimit)) }

  // ---------------------------------------------------------------------------
  // Connections

  function ReportedOf(s: State, tag: Tag): set<string> {
    if tag in s.reported then s.reported[tag] else {}
  }

  function IpsOf(s: State, tag: Tag): map<string, nat> {
    if tag in s.online then s.online[tag].ips else map[]
  }

  /** Devices counted against the limit, one more included. */
  function Devices(ips: set<string>, reported: set<string>, alive: int): int {
    var known := if alive >= |ips * reported| then alive else |ips * reported|;
    known + |ips - reported| + 1
  }

  /** Whether a connection from this IP is let in. */
  predicate Admits(o: Online, pending: bool, reported: set<string>, ip: string, alive: int, limit: int) {
    || (ip in o.ips && o.ips[ip] > 0) || limit <= 0 || (pending && ip in reported)
    || Devices(o.ips.Keys, reported, alive) <= limit
  }

  function Joined(o: Online, ip: string): Online {
    o.(ips := o.ips[ip := if ip in o.ips then o.ips[ip] + 1 else 1])
  }

  function Track(s: State, tag: Tag, uid: int, ip: string, alive: int, limit: int): (State, bool) {
    var o := if tag in s.online then s.online[tag] else Online(uid, map[]);
    if Admits(o, tag in s.pending, ReportedOf(s, tag), ip, alive, limit) then
      (s.(online := s.online[tag := Joined(o, ip)], pending := s.pending - {tag}), true)
    else (if o.ips == map[] then s.(online := s.online - {tag}) else s, false)
  }

  /** CheckLimit: whether the connection may open. */
  function Check(s: State, tag: Tag, ip: string, track: bool): (State, bool) {
    if tag !in s.limits then (s, false)
    else if !track then (s, true)
    else
      var info := s.limits[tag];
      Track(s, tag, info.uid, Trim(ip), if info.uid in s.alive then s.alive[info.uid] else 0, info.deviceLimit)
  }

  function Release(s: State, tag: Tag, ip0: string): State {
    var ip := Trim(ip0);
    if tag !in s.online then s
    else
      var o := s.online[tag];
      if ip in o.ips && o.ips[ip] > 1 then s.(online := s.online[tag := o.(ips := o.ips[ip := o.ips[ip] - 1])])
      else
        var left := o.ips - {ip};
        if left != map[] then s.(online := s.online[tag := o.(ips := left)])
        else s.(online := s.online - {tag},
                pending := if ReportedOf(s, tag) != {} then s.pending[tag := o.uid] else s.pending - {tag})
  }

  // ---------------------------------------------------------------------------
  // Reports

  /** The IPs the panel accepted for one user. */
  function AcceptedIps(list: seq<OnlineUser>, uid: int): set<string> {
    if list == [] then {}
    else
      var last := list[|list| - 1];
      AcceptedIps(list[..|list| - 1], uid) + (if last.uid == uid then {Trim(last.ip)} else {})
  }

  function MarkOnline(s: State, list: seq<OnlineUser>): State {
    s.(reported := map tag | tag in s.reported.Keys + s.online.Keys
         && (tag in s.online ==> AcceptedIps(list, s.online[tag].uid) != {})
         :: if tag in s.online then AcceptedIps(list, s.online[tag].uid) else s.reported[tag])
  }

  function MarkOfflineOne(s: State, item: OfflineUser): State {
    if item.tag !in s.pending || s.pending[item.tag] != item.uid || IpsOf(s, item.tag) != map[] then s
    else s.(pending := s.pending - {item.tag}, reported := s.reported - {item.tag})
  }

  function MarkOffline(s: State, list: seq<OfflineUser>): State {
    if list == [] then s else MarkOfflineOne(MarkOffline(s, list[..|list| - 1]), list[|list| - 1])
  }

  // ---------------------------------------------------------------------------
  // Users

  function TagsOf(tag: string, users: seq<User>): set<Tag> {
    if users == [] then {} else TagsOf(tag, users[..|users| - 1]) + {UserTag(tag, users[|users| - 1].uuid)}
  }

  function IdsOf(users: seq<User>): set<int> {
    if users == [] then {} else IdsOf(users[..|users| - 1]) + {users[|users| - 1].id}
  }

  function ModifyOne(m: map<Tag, LimitInfo>, tag: string, u: User): map<Tag, LimitInfo> {
    var key := UserTag(tag, u.uuid);
    if key in m then m[key := LimitInfo(m[key].uid, u.deviceLimit, u.speedLimit, Bucket(u.speedLimit))] else m
  }

  function Modify(m: map<Tag, LimitInfo>, tag: string, users: seq<User>): map<Tag, LimitInfo> {
    if users == [] then m else ModifyOne(Modify(m, tag, users[..|users| - 1]), tag, users[|users| - 1])
  }

  function StoreAll(m: map<Tag, LimitInfo>, tag: string, users: seq<User>): map<Tag, LimitInfo> {
    if users == [] then m
    else StoreAll(m, tag, users[..|users| - 1])[UserTag(tag, users[|users| - 1].uuid) := NewInfo(users[|users| - 1])]
  }

  function Update(s: State, tag: string, added: seq<User>, deleted: seq<User>, modified: seq<User>): State {
    var gone := TagsOf(tag, deleted);
    State(StoreAll(Modify(s.limits - gone, tag, modified), tag, added), s.alive - IdsOf(deleted),
          s.online - gone, s.reported - gone, s.pending - gone)
  }

  // ---------------------------------------------------------------------------
  // The limiter

  class DeviceLimiter {
    var limits: map<Tag, LimitInfo>
    var alive: map<int, int>
    var online: map<Tag, Online>
    var reported: map<Tag, set<string>>
    var pendingOffline: map<Tag, int>

    function View(): State
      reads this
    {
      State(limits, alive, online, reported, pendingOffline)
    }

    constructor (tag: string, users: seq<User>, alive: map<int, int>)
      ensures View() == State(StoreAll(map[], tag, users), alive, map[], map[], map[])
    {
      this.alive, online, reported, pendingOffline := alive, map[], map[], map[];
      limits := map[];
      new;
      for i := 0 to |users|
        invariant View() == State(StoreAll(map[], tag, users[..i]), alive, map[], map[], map[])
      {
        assert users[..i + 1][..i] == users[..i];
        limits := limits[UserTag(tag, users[i].uuid) := NewInfo(users[i])];
      }
      assert users[..|users|] == users;
    }

    method CheckLimit(tag: Tag, ip: string, track: bool) returns (ok: bool)
      modifies this
      ensures (View(), ok) == Check(old(View()), tag, ip, track)
    {
      if tag !in limits { return false; }
      var info := limits[tag];
      if track {
        ok := TrackConnection(tag, info.uid, Trim(ip), if info.uid in alive then alive[info.uid] else 0, info.deviceLimit);
      } else {
        ok := true;
      }
    }

    /** The state object is created before it is known whether the connection is accepted, as in the source. */
    method TrackConnection(tag: Tag, uid: int, ip: string, aliveIP: int, deviceLimit: int) returns (ok: bool)
      modifies this`online, this`pendingOffline
      ensures (View(), ok) == Track(old(View()), tag, uid, ip, aliveIP, deviceLimit)
    {
      ghost var s := View();
      if tag !in online { online := online[tag := Online(uid, map[])]; }
      var state := online[tag];
      ok := Decide(state, tag in pendingOffline, ReportedOf(View(), tag), ip, aliveIP, deviceLimit);
      Overwrite(s.online, tag, state, Joined(state, ip));
      if ok {
        online := online[tag := Joined(state, ip)];
        pendingOffline := pendingOffline - {tag};
      } else if state.ips == map[] {
        online := online - {tag};
      }
    }

    /** The tests of trackConnection in their order. */
    static method Decide(state: Online, pending: bool, rep: set<string>, ip: string, aliveIP: int, deviceLimit: int)
      returns (ok: bool)
      ensures ok == Admits(state, pending, rep, ip, aliveIP, deviceLimit)
    {
      if ip in state.ips && state.ips[ip] > 0 { return true; }
      if deviceLimit > 0 {
        if pending && ip in rep { return true; }
        var devices := CountDevices(state.ips.Keys, rep, aliveIP);
        if devices > deviceLimit { return false; }
      }
      ok := true;
    }

    static method CountDevices(ips: set<string>, rep: set<string>, aliveIP: int) returns (devices: int)
      ensures devices == Devices(ips, rep, aliveIP)
    {
      var inside, outside := 0, 0;
      var todo := ips;
      ghost var done: set<string> := {};
      while todo != {}
        invariant done + todo == ips && done !! todo && inside == |done * rep| && outside == |done - rep|
        decreases |todo|
      {
        var ip :| ip in todo;
        todo := todo - {ip};
        CountOne(done, ip, rep);
        if ip in rep {
          inside := inside + 1;
        } else {
          outside := outside + 1;
        }
        done := done + {ip};
      }
      assert done == ips;
      devices := (if aliveIP >= inside then aliveIP else inside) + outside + 1;
    }

    method ReleaseConnection(tag: Tag, ip0: string)
      modifies this`online, this`pendingOffline
      ensures View() == Release(old(View()), tag, ip0)
    {
      var ip := Trim(ip0);
      if tag !in online { return; }
      var state := online[tag];
      if ip in state.ips && state.ips[ip] > 1 {
        online := online[tag := state.(ips := state.ips[ip := state.ips[ip] - 1])];
        return;
      }
      online := online[tag := state.(ips := state.ips - {ip})];
      if state.ips - {ip} == map[] {
        online := online - {tag};
        assert online == old(online) - {tag};
        if ReportedOf(View(), tag) != {} {
          pendingOffline := pendingOffline[tag := state.uid];
        } else {
          pendingOffline := pendingOffline - {tag};
        }
      }
    }

    method MarkOfflineUsersReported(list: seq<OfflineUser>)
      modifies this`reported, this`pendingOffline
      ensures View() == MarkOffline(old(View()), list)
    {
      for i := 0 to |list|
        invariant View() == MarkOffline(old(View()), list[..i])
      {
        assert list[..i + 1][..i] == list[..i];
        var item := list[i];
        if item.tag in pendingOffline && pendingOffline[item.tag] == item.uid
          && !(item.tag in online && online[item.tag].ips != map[]) {
          pendingOffline := pendingOffline - {item.tag};
          reported := reported - {item.tag};
        }
      }
      assert list[..|list|] == list;
    }

    static method GroupByUid(list: seq<OnlineUser>) returns (byUid: map<int, set<string>>)
      ensures forall u :: (if u in byUid then byUid[u] else {}) == AcceptedIps(list, u)
    {
      byUid := map[];
      for i := 0 to |list|
        invariant forall u :: (if u in byUid then byUid[u] else {}) == AcceptedIps(list[..i], u)
      {
        assert list[..i + 1][..i] == list[..i];
        var item := list[i];
        byUid := byUid[item.uid := (if item.uid in byUid then byUid[item.uid] else {}) + {Trim(item.ip)}];
      }
      assert list[..|list|] == list;
    }

    method MarkOnlineDeviceReported(list: seq<OnlineUser>)
      modifies this`reported
      ensures View() == MarkOnline(old(View()), list)
    {
      var byUid := GroupByUid(list);
      ghost var s := View();
      var todo := online.Keys;
      while todo != {}
        invariant View() == s.(reported := reported) && todo <= online.Keys
        invariant MarkedBut(s, list, todo, reported)
        decreases |todo|
      {
        var tag :| tag in todo;
        ghost var before := reported;
        var ips := if online[tag].uid in byUid then byUid[online[tag].uid] else {};
        if ips != {} {
          reported := reported[tag := ips];
        } else {
          reported := reported - {tag};
        }
        MarkedStep(s, list, todo, before, tag, reported);
        todo := todo - {tag};
      }
      MarkedAll(s, list, reported);
    }

    method UpdateUser(tag: string, added: seq<User>, deleted: seq<User>, modified: seq<User>)
      modifies this
      ensures View() == Update(old(View()), tag, added, deleted, modified)
    {
      UpdateLimits(tag, added, deleted, modified);
      Forget(tag, deleted);
    }

    method UpdateLimits(tag: string, added: seq<User>, deleted: seq<User>, modified: seq<User>)
      modifies this`limits
      ensures limits == StoreAll(Modify(old(limits) - TagsOf(tag, deleted), tag, modified), tag, added)
    {
      assert limits == old(limits) - TagsOf(tag, []);
      for i := 0 to |deleted|
        invariant limits == old(limits) - TagsOf(tag, deleted[..i])
      {
        assert deleted[..i + 1][..i] == deleted[..i];
        limits := limits - {UserTag(tag, deleted[i].uuid)};
      }
      ghost var m := limits;
      for i := 0 to |modified|
        invariant limits == Modify(m, tag, modified[..i])
      {
        assert modified[..i + 1][..i] == modified[..i];
        var u := modified[i];
        if UserTag(tag, u.uuid) in limits {
          var info := limits[UserTag(tag, u.uuid)];
          limits := limits[UserTag(tag, u.uuid) := info.(deviceLimit := u.deviceLimit, speedLimit := u.speedLimit,
                                                          bucket := Bucket(u.speedLimit))];
        }
      }
      ghost var n := limits;
      for i := 0 to |added|
        invariant limits == StoreAll(n, tag, added[..i])
      {
        assert added[..i + 1][..i] == added[..i];
        limits := limits[UserTag(tag, added[i].uuid) := NewInfo(added[i])];
      }
      assert deleted[..|deleted|] == deleted && modified[..|modified|] == modified && added[..|added|] == added;
    }

    /** Deleted users leave the alive list and all device tracking. */
    method Forget(tag: string, deleted: seq<User>)
      modifies this`alive, this`online, this`reported, this`pendingOffline
      ensures alive == old(alive) - IdsOf(deleted) && online == old(online) - TagsOf(tag, deleted)
      ensures reported == old(reported) - TagsOf(tag, deleted) && pendingOffline == old(pendingOffline) - TagsOf(tag, deleted)
    {
      ForgetAlive(deleted);
      assert online == old(online) - TagsOf(tag, []) && reported == old(reported) - TagsOf(tag, []);
      assert pendingOffline == old(pendingOffline) - TagsOf(tag, []);
      for i := 0 to |deleted|
        invariant online == old(online) - TagsOf(tag, deleted[..i]) && reported == old(reported) - TagsOf(tag, deleted[..i])
        invariant pendingOffline == old(pendingOffline) - TagsOf(tag, deleted[..i]) && alive == old(alive) - IdsOf(deleted)
      {
        assert deleted[..i + 1][..i] == deleted[..i];
        var key := UserTag(tag, deleted[i].uuid);
        online, reported, pendingOffline := online - {key}, reported - {key}, pendingOffline - {key};
      }
      assert deleted[..|deleted|] == deleted;
    }

    method ForgetAlive(deleted: seq<User>)
      modifies this`alive
      ensures alive == old(alive) - IdsOf(deleted)
    {
      assert alive == old(alive) - IdsOf([]) && deleted[..|deleted|] == deleted;
      for i := 0 to |deleted|
        invariant alive == old(alive) - IdsOf(deleted[..i])
      {
        assert deleted[..i + 1][..i] == deleted[..i];
        alive := alive - {deleted[i].id};
      }
    }
  }

  lemma Overwrite(m: map<Tag, Online>, tag: Tag, a: Online, b: Online)
    ensures m[tag := a][tag := b] == m[tag := b] && m[tag := a] - {tag} == m - {tag}
  {
  }

  lemma CountOne(done: set<string>, ip: string, rep: set<string>)
    requires ip !in done
    ensures |(done + {ip}) * rep| == |done * rep| + (if ip in rep then 1 else 0)
    ensures |(done + {ip}) - rep| == |done - rep| + (if ip in rep then 0 else 1)
  {
    if ip in rep {
      assert (done + {ip}) * rep == done * rep + {ip} && (done + {ip}) - rep == done - rep;
    } else {
      assert (done + {ip}) - rep == done - rep + {ip} && (done + {ip}) * rep == done * rep;
    }
  }

  /** One online user's reported set after an accepted report. */
  ghost predicate Marked(s: State, list: seq<OnlineUser>, tag: Tag, reported: map<Tag, set<string>>) {
    tag in s.online &&
    var ips := AcceptedIps(list, s.online[tag].uid);
    (tag in reported <==> ips != {}) && (tag in reported ==> reported[tag] == ips)
  }

  ghost predicate Untouched(s: State, tag: Tag, reported: map<Tag, set<string>>) {
    (tag in reported <==> tag in s.reported) && (tag in reported ==> reported[tag] == s.reported[tag])
  }

  /** All online users are marked, save those still to do. */
  ghost predicate MarkedBut(s: State, list: seq<OnlineUser>, todo: set<Tag>, reported: map<Tag, set<string>>) {
    && (forall t :: t in s.online && t !in todo ==> Marked(s, list, t, reported))
    && (forall t :: t !in s.online || t in todo ==> Untouched(s, t, reported))
  }

  lemma MarkedStep(s: State, list: seq<OnlineUser>, todo: set<Tag>, before: map<Tag, set<string>>, tag: Tag,
                   reported: map<Tag, set<string>>)
    requires MarkedBut(s, list, todo, before) && tag in s.online
    requires var ips := AcceptedIps(list, s.online[tag].uid);
      reported == if ips != {} then before[tag := ips] else before - {tag}
    ensures MarkedBut(s, list, todo - {tag}, reported)
  {
    forall t | t in s.online && t !in todo - {tag} ensures Marked(s, list, t, reported) {
      if t != tag { assert Marked(s, list, t, before); }
    }
    forall t | t !in s.online || t in todo - {tag} ensures Untouched(s, t, reported) {
      assert Untouched(s, t, before);
    }
  }

  lemma MarkedAll(s: State, list: seq<OnlineUser>, reported: map<Tag, set<string>>)
    requires forall t :: t in s.online ==> Marked(s, list, t, reported)
    requires forall t :: t !in s.online ==> Untouched(s, t, reported)
    ensures reported == MarkOnline(s, list).reported
  {
    var want := MarkOnline(s, list).reported;
    forall t ensures t in reported <==> t in want {
      assert t in s.online ==> Marked(s, list, t, reported);
      assert t !in s.online ==> Untouched(s, t, reported);
    }
    forall t | t in reported ensures reported[t] == want[t] {
      assert t in s.online ==> Marked(s, list, t, reported);
      assert t !in s.online ==> Untouched(s, t, reported);
    }
  }
}
