/** Device tracking over all runs of connections, releases, reports and user changes. */
module LimiterTheorems {
  import opened Common
  import opened Panel
  import opened Limiter

  ghost predicate GoodOnline(o: Online) {
    o.ips != map[] && forall ip | ip in o.ips :: o.ips[ip] > 0
  }

  /** Online and pending offline exclude each other; online means some IP, pending means something was reported. */
  ghost predicate ValidAt(s: State, t: Tag) {
    && (t in s.online ==> GoodOnline(s.online[t]) && t !in s.pending)
    && (t in s.pending ==> ReportedOf(s, t) != {})
  }

  /** What every reachable state satisfies. */
  ghost predicate Valid(s: State) {
    forall t :: ValidAt(s, t)
  }

  datatype Slot = Slot(tag: Tag, ip: string)

  /** The limiter and the tracked sessions that are really open. */
  datatype World = World(s: State, live: map<Slot, nat>)

  datatype Action =
    | Connect(tag: Tag, ip: string, track: bool)
    | Close(tag: Tag, ip: string)
    | SetAlive(alive: map<int, int>)
    | OnlineReported(online: seq<OnlineUser>)
    | OfflineReported(offline: seq<OfflineUser>)
    | Users(node: string, added: seq<User>, deleted: seq<User>, modified: seq<User>)

  function Live(w: World, slot: Slot): nat {
    if slot in w.live then w.live[slot] else 0
  }

  function Count(s: State, slot: Slot): nat {
    var ips := IpsOf(s, slot.tag);
    if slot.ip in ips then ips[slot.ip] else 0
  }

  /** A session releases its slot once, so closing needs an open one. */
  function Apply(w: World, a: Action): World {
    match a
    case Connect(tag, ip, track) =>
      var (t, ok) := Check(w.s, tag, ip, track);
      var slot := Slot(tag, Trim(ip));
      World(t, if ok && track then w.live[slot := Live(w, slot) + 1] else w.live)
    case Close(tag, ip) =>
      var slot := Slot(tag, Trim(ip));
      if Live(w, slot) == 0 then w else World(Release(w.s, tag, ip), w.live[slot := Live(w, slot) - 1])
    case SetAlive(alive) => w.(s := w.s.(alive := alive))
    case OnlineReported(online) => w.(s := MarkOnline(w.s, online))
    case OfflineReported(offline) => w.(s := MarkOffline(w.s, offline))
    case Users(node, added, deleted, modified) => w.(s := Update(w.s, node, added, deleted, modified))
  }

  function Start(limits: map<Tag, LimitInfo>, alive: map<int, int>): World {
    World(State(limits, alive, map[], map[], map[]), map[])
  }

  function Exec(w: World, actions: seq<Action>): World {
    if actions == [] then w else Apply(Exec(w, actions[..|actions| - 1]), actions[|actions| - 1])
  }

  // ---------------------------------------------------------------------------
  // The invariant

  lemma JoinedIsGood(o: Online, ip: string)
    requires o.ips == map[] || GoodOnline(o)
    ensures GoodOnline(Joined(o, ip)) && Joined(o, ip).ips.Keys == o.ips.Keys + {ip}
  {
    assert ip in Joined(o, ip).ips;
  }

  lemma TrackKeepsValid(s: State, tag: Tag, uid: int, ip: string, alive: int, limit: int)
    requires Valid(s)
    ensures Valid(Track(s, tag, uid, ip, alive, limit).0)
    ensures !Track(s, tag, uid, ip, alive, limit).1 ==> Track(s, tag, uid, ip, alive, limit).0 == s
  {
    assert ValidAt(s, tag);
    var o := if tag in s.online then s.online[tag] else Online(uid, map[]);
    AcceptKeepsValid(s, tag, o, ip);
    assert tag !in s.online ==> s.online - {tag} == s.online;
  }

  lemma AcceptKeepsValid(s: State, tag: Tag, o: Online, ip: string)
    requires Valid(s) && (o.ips == map[] || GoodOnline(o))
    ensures Valid(s.(online := s.online[tag := Joined(o, ip)], pending := s.pending - {tag}))
  {
    var t := s.(online := s.online[tag := Joined(o, ip)], pending := s.pending - {tag});
    JoinedIsGood(o, ip);
    forall x ensures ValidAt(t, x) { assert ValidAt(s, x); }
  }

  lemma LessIsGood(o: Online, ip: string)
    requires GoodOnline(o)
    ensures ip in o.ips && o.ips[ip] > 1 ==> GoodOnline(o.(ips := o.ips[ip := o.ips[ip] - 1]))
    ensures o.ips - {ip} != map[] ==> GoodOnline(o.(ips := o.ips - {ip}))
  {
    if ip in o.ips && o.ips[ip] > 1 { assert ip in o.ips[ip := o.ips[ip] - 1]; }
  }

  lemma ReleaseKeepsValid(s: State, tag: Tag, ip: string)
    requires Valid(s)
    ensures Valid(Release(s, tag, ip))
  {
    var t := Release(s, tag, ip);
    assert ValidAt(s, tag);
    if tag in s.online { LessIsGood(s.online[tag], Trim(ip)); }
    forall x ensures ValidAt(t, x) { assert ValidAt(s, x); }
  }

  lemma MarkOnlineKeepsValid(s: State, list: seq<OnlineUser>)
    requires Valid(s)
    ensures Valid(MarkOnline(s, list))
  {
    forall x ensures ValidAt(MarkOnline(s, list), x) { assert ValidAt(s, x); }
  }

  lemma {:induction false} MarkOfflineKeepsValid(s: State, list: seq<OfflineUser>)
    requires Valid(s)
    ensures Valid(MarkOffline(s, list)) && MarkOffline(s, list).online == s.online
  {
    if list != [] {
      var t := MarkOffline(s, list[..|list| - 1]);
      MarkOfflineKeepsValid(s, list[..|list| - 1]);
      forall x ensures ValidAt(MarkOffline(s, list), x) { assert ValidAt(t, x); }
    }
  }

  lemma UpdateKeepsValid(s: State, node: string, added: seq<User>, deleted: seq<User>, modified: seq<User>)
    requires Valid(s)
    ensures Valid(Update(s, node, added, deleted, modified))
  {
    forall x ensures ValidAt(Update(s, node, added, deleted, modified), x) { assert ValidAt(s, x); }
  }

  lemma StepKeepsValid(w: World, a: Action)
    requires Valid(w.s)
    ensures Valid(Apply(w, a).s)
  {
    match a {
      case Connect(tag, ip, track) =>
        if tag in w.s.limits && track {
          var info := w.s.limits[tag];
          TrackKeepsValid(w.s, tag, info.uid, Trim(ip), if info.uid in w.s.alive then w.s.alive[info.uid] else 0, info.deviceLimit);
        }
      case Close(tag, ip) => ReleaseKeepsValid(w.s, tag, ip);
      case SetAlive(alive) =>
        forall x ensures ValidAt(w.s.(alive := alive), x) { assert ValidAt(w.s, x); }
      case OnlineReported(online) => MarkOnlineKeepsValid(w.s, online);
      case OfflineReported(offline) => MarkOfflineKeepsValid(w.s, offline);
      case Users(node, added, deleted, modified) => UpdateKeepsValid(w.s, node, added, deleted, modified);
    }
  }

  lemma {:induction false} ReachableValid(limits: map<Tag, LimitInfo>, alive: map<int, int>, actions: seq<Action>)
    ensures Valid(Exec(Start(limits, alive), actions).s)
  {
    if actions != [] {
      ReachableValid(limits, alive, actions[..|actions| - 1]);
      StepKeepsValid(Exec(Start(limits, alive), actions[..|actions| - 1]), actions[|actions| - 1]);
    }
  }

  // ---------------------------------------------------------------------------
  // The limit

  /**
   A connection from a new IP is accepted only within the limit, and a rejected one
   changes nothing; an untracked one of a known user is always accepted.
   */
  lemma LimitHolds(limits: map<Tag, LimitInfo>, alive: map<int, int>, actions: seq<Action>, tag: Tag, ip: string)
    ensures var w := Exec(Start(limits, alive), actions);
      var (t, ok) := Check(w.s, tag, ip, true);
      && (ok <==> tag in w.s.limits && Room(w.s, tag, Trim(ip)))
      && (!ok ==> t == w.s)
      && (ok ==> Trim(ip) in IpsOf(t, tag) && tag !in t.pending)
      && (ok && w.s.limits[tag].deviceLimit > 0 && Trim(ip) !in IpsOf(w.s, tag) ==>
            |IpsOf(t, tag).Keys| <= w.s.limits[tag].deviceLimit)
    ensures var w := Exec(Start(limits, alive), actions); Check(w.s, tag, ip, false) == (w.s, tag in w.s.limits)
  {
    var w := Exec(Start(limits, alive), actions);
    ReachableValid(limits, alive, actions);
    if tag in w.s.limits {
      var info := w.s.limits[tag];
      var known := if info.uid in w.s.alive then w.s.alive[info.uid] else 0;
      TrackKeepsValid(w.s, tag, info.uid, Trim(ip), known, info.deviceLimit);
      TrackWithinLimit(w.s, tag, info.uid, Trim(ip), known, info.deviceLimit);
    }
  }

  /** In the user's words: a known IP, no limit, a returning device, or few enough devices, known to the panel or not. */
  ghost predicate Room(s: State, tag: Tag, ip: string)
    requires tag in s.limits
  {
    var info, ips, reported := s.limits[tag], IpsOf(s, tag).Keys, ReportedOf(s, tag);
    var alive := if info.uid in s.alive then s.alive[info.uid] else 0;
    || ip in ips || info.deviceLimit <= 0 || (tag in s.pending && ip in reported)
    || (alive + |ips - reported| < info.deviceLimit && |ips| < info.deviceLimit)
  }

  lemma SplitCount(ips: set<string>, reported: set<string>)
    ensures |ips| == |ips * reported| + |ips - reported|
  {
    assert ips == (ips * reported) + (ips - reported);
  }

  lemma TrackWithinLimit(s: State, tag: Tag, uid: int, ip: string, alive: int, limit: int)
    requires Valid(s)
    ensures var (t, ok) := Track(s, tag, uid, ip, alive, limit);
      var ips, reported := IpsOf(s, tag).Keys, ReportedOf(s, tag);
      && (ok <==> ip in ips || limit <= 0 || (tag in s.pending && ip in reported)
                  || (alive + |ips - reported| < limit && |ips| < limit))
      && (ok ==> IpsOf(t, tag).Keys == ips + {ip} && tag !in t.pending)
      && (ok && limit > 0 && ip !in ips ==> |IpsOf(t, tag).Keys| <= limit)
  {
    var (t, ok) := Track(s, tag, uid, ip, alive, limit);
    var o := if tag in s.online then s.online[tag] else Online(uid, map[]);
    var ips, reported := IpsOf(s, tag).Keys, ReportedOf(s, tag);
    assert ValidAt(s, tag) && o.ips.Keys == ips;
    SplitCount(ips, reported);
    if tag in s.pending { assert ips == {}; }
    AdmitsIff(o, tag in s.pending, reported, ip, alive, limit);
    if ok { JoinedIsGood(o, ip); }
  }

  /** Counting reported and unreported devices apart is counting all of them, or the panel's and the unreported. */
  lemma AdmitsIff(o: Online, pending: bool, reported: set<string>, ip: string, alive: int, limit: int)
    requires o.ips == map[] || GoodOnline(o)
    ensures Admits(o, pending, reported, ip, alive, limit)
      <==> ip in o.ips || limit <= 0 || (pending && ip in reported)
           || (alive + |o.ips.Keys - reported| < limit && |o.ips.Keys| < limit)
  {
    SplitCount(o.ips.Keys, reported);
  }

  // ---------------------------------------------------------------------------
  // Slots are the sessions that are open

  /** Every count is the number of open sessions from that IP. */
  ghost predicate Exact(w: World) {
    forall slot: Slot :: Count(w.s, slot) == Live(w, slot)
  }

  /** Users are deleted only once none of their sessions is open. */
  ghost predicate Undisturbed(w: World, a: Action) {
    a.Users? ==> forall slot: Slot :: slot.tag in TagsOf(a.node, a.deleted) ==> Live(w, slot) == 0
  }

  lemma TrackCounts(s: State, tag: Tag, uid: int, ip: string, alive: int, limit: int, slot: Slot)
    requires Valid(s)
    ensures var (t, ok) := Track(s, tag, uid, ip, alive, limit);
      Count(t, slot) == Count(s, slot) + (if ok && slot == Slot(tag, ip) then 1 else 0)
  {
    var ok := Track(s, tag, uid, ip, alive, limit).1;
    if !ok { TrackKeepsValid(s, tag, uid, ip, alive, limit); }
  }

  lemma ConnectKeepsExact(w: World, tag: Tag, ip: string, track: bool)
    requires Valid(w.s) && Exact(w)
    ensures Exact(Apply(w, Connect(tag, ip, track)))
  {
    var v := Apply(w, Connect(tag, ip, track));
    forall slot: Slot ensures Count(v.s, slot) == Live(v, slot) {
      assert Count(w.s, slot) == Live(w, slot);
      if tag in w.s.limits && track {
        var info := w.s.limits[tag];
        TrackCounts(w.s, tag, info.uid, Trim(ip), if info.uid in w.s.alive then w.s.alive[info.uid] else 0, info.deviceLimit, slot);
      }
    }
  }

  lemma CloseKeepsExact(w: World, tag: Tag, ip: string)
    requires Valid(w.s) && Exact(w)
    ensures Exact(Apply(w, Close(tag, ip)))
  {
    var v := Apply(w, Close(tag, ip));
    assert Count(w.s, Slot(tag, Trim(ip))) == Live(w, Slot(tag, Trim(ip)));
    forall slot: Slot ensures Count(v.s, slot) == Live(v, slot) {
      assert Count(w.s, slot) == Live(w, slot);
      if Count(w.s, Slot(tag, Trim(ip))) > 0 { CloseCounts(w.s, tag, ip, slot); }
    }
  }

  lemma CloseCounts(s: State, tag: Tag, ip: string, slot: Slot)
    requires Valid(s) && Count(s, Slot(tag, Trim(ip))) > 0
    ensures Count(Release(s, tag, ip), slot) == Count(s, slot) - (if slot == Slot(tag, Trim(ip)) then 1 else 0)
  {
    assert ValidAt(s, tag);
    if slot.tag == tag && slot.ip != Trim(ip) && slot.ip in s.online[tag].ips {
      assert slot.ip in s.online[tag].ips - {Trim(ip)};
    }
  }

  lemma ReportsKeepExact(w: World, online: seq<OnlineUser>, offline: seq<OfflineUser>)
    requires Valid(w.s) && Exact(w)
    ensures Exact(Apply(w, OnlineReported(online))) && Exact(Apply(w, OfflineReported(offline)))
  {
    MarkOfflineKeepsValid(w.s, offline);
    var v, u := Apply(w, OnlineReported(online)), Apply(w, OfflineReported(offline));
    forall slot: Slot ensures Count(v.s, slot) == Live(v, slot) && Count(u.s, slot) == Live(u, slot) {
      assert Count(w.s, slot) == Live(w, slot);
    }
  }

  /** Updating users keeps the counts exact if and only if no deleted user has an open session. */
  lemma UpdateKeepsExactIff(w: World, node: string, added: seq<User>, deleted: seq<User>, modified: seq<User>)
    requires Valid(w.s) && Exact(w)
    ensures var a := Users(node, added, deleted, modified); Exact(Apply(w, a)) <==> Undisturbed(w, a)
  {
    var a := Users(node, added, deleted, modified);
    var v := Apply(w, a);
    forall slot: Slot ensures Count(v.s, slot) == (if slot.tag in TagsOf(node, deleted) then 0 else Live(w, slot)) {
      assert Count(w.s, slot) == Live(w, slot);
    }
    forall slot: Slot ensures Live(v, slot) == Live(w, slot) {}
    if Exact(v) {
      forall slot: Slot | slot.tag in TagsOf(node, deleted) ensures Live(w, slot) == 0 {
        assert Count(v.s, slot) == Live(v, slot);
      }
    }
  }

  lemma StepKeepsExact(w: World, a: Action)
    requires Valid(w.s) && Exact(w) && Undisturbed(w, a)
    ensures Exact(Apply(w, a))
  {
    match a {
      case Connect(tag, ip, track) => ConnectKeepsExact(w, tag, ip, track);
      case Close(tag, ip) => CloseKeepsExact(w, tag, ip);
      case SetAlive(alive) =>
        forall slot: Slot ensures Count(Apply(w, a).s, slot) == Live(Apply(w, a), slot) {
          assert Count(w.s, slot) == Live(w, slot);
        }
      case OnlineReported(online) => ReportsKeepExact(w, online, []);
      case OfflineReported(offline) => ReportsKeepExact(w, [], offline);
      case Users(node, added, deleted, modified) => UpdateKeepsExactIff(w, node, added, deleted, modified);
    }
  }

  ghost predicate AllUndisturbed(w: World, actions: seq<Action>) {
    forall i | 0 <= i < |actions| :: Undisturbed(Exec(w, actions[..i]), actions[i])
  }

  lemma {:induction false} ReachableExact(limits: map<Tag, LimitInfo>, alive: map<int, int>, actions: seq<Action>)
    requires AllUndisturbed(Start(limits, alive), actions)
    ensures Exact(Exec(Start(limits, alive), actions))
  {
    if actions != [] {
      var n := |actions| - 1;
      var init := actions[..n];
      forall i | 0 <= i < n ensures Undisturbed(Exec(Start(limits, alive), init[..i]), init[i]) {
        assert init[..i] == actions[..i] && init[i] == actions[i];
      }
      ReachableExact(limits, alive, init);
      ReachableValid(limits, alive, init);
      StepKeepsExact(Exec(Start(limits, alive), init), actions[n]);
    }
  }

  /** The online IPs of a user are exactly those with an open session, each counted as often as it has one. */
  lemma SlotsAreOpenSessions(limits: map<Tag, LimitInfo>, alive: map<int, int>, actions: seq<Action>)
    requires AllUndisturbed(Start(limits, alive), actions)
    ensures var w := Exec(Start(limits, alive), actions);
      Exact(w) && forall slot: Slot :: slot.ip in IpsOf(w.s, slot.tag) <==> Live(w, slot) > 0
  {
    var w := Exec(Start(limits, alive), actions);
    ReachableExact(limits, alive, actions);
    ReachableValid(limits, alive, actions);
    forall slot: Slot ensures slot.ip in IpsOf(w.s, slot.tag) <==> Live(w, slot) > 0 {
      assert Count(w.s, slot) == Live(w, slot);
      assert ValidAt(w.s, slot.tag);
    }
  }

  // ---------------------------------------------------------------------------
  // Leaving, and what the panel hears of it

  /** Some session of the user is open. */
  ghost predicate AnyLive(w: World, tag: Tag) {
    exists ip :: Live(w, Slot(tag, ip)) > 0
  }

  lemma OnlineIffLive(w: World, tag: Tag)
    requires Valid(w.s) && Exact(w)
    ensures tag in w.s.online <==> AnyLive(w, tag)
  {
    assert ValidAt(w.s, tag);
    if tag in w.s.online {
      var ip :| ip in w.s.online[tag].ips;
      assert Count(w.s, Slot(tag, ip)) == Live(w, Slot(tag, ip));
    }
    if AnyLive(w, tag) {
      var ip :| Live(w, Slot(tag, ip)) > 0;
      assert Count(w.s, Slot(tag, ip)) == Live(w, Slot(tag, ip));
    }
  }

  lemma ReleaseFrame(s: State, tag: Tag, ip: string)
    requires Valid(s) && tag in s.online
    ensures var t := Release(s, tag, ip);
      && t.limits == s.limits && t.alive == s.alive && t.reported == s.reported
      && t.online - {tag} == s.online - {tag} && t.pending - {tag} == s.pending - {tag}
      && (tag in t.online ==> t.pending == s.pending && t.online[tag].uid == s.online[tag].uid)
      && (tag in t.pending <==> tag !in t.online && ReportedOf(s, tag) != {})
      && (tag in t.pending ==> t.pending[tag] == s.online[tag].uid)
  {
    assert ValidAt(s, tag);
  }

  /**
   A session closes: its user stays online exactly while another of its sessions is
   open. The last one leaves the user pending offline if and only if the panel was
   told of it, under the id it was online with; nobody else is touched.
   */
  lemma LastReleaseGoesOffline(limits: map<Tag, LimitInfo>, alive: map<int, int>, actions: seq<Action>, tag: Tag, ip: string)
    requires AllUndisturbed(Start(limits, alive), actions)
    requires Live(Exec(Start(limits, alive), actions), Slot(tag, Trim(ip))) > 0
    ensures var w := Exec(Start(limits, alive), actions);
      var v := Apply(w, Close(tag, ip));
      && tag in w.s.online
      && (tag in v.s.online <==> AnyLive(v, tag))
      && (tag in v.s.pending <==> !AnyLive(v, tag) && ReportedOf(w.s, tag) != {})
      && (tag in v.s.pending ==> v.s.pending[tag] == w.s.online[tag].uid)
      && v.s.online - {tag} == w.s.online - {tag} && v.s.pending - {tag} == w.s.pending - {tag}
      && v.s.reported == w.s.reported
  {
    var w := Exec(Start(limits, alive), actions);
    ReachableValid(limits, alive, actions);
    ReachableExact(limits, alive, actions);
    assert AnyLive(w, tag);
    OnlineIffLive(w, tag);
    ReleaseFrame(w.s, tag, ip);
    CloseKeepsExact(w, tag, ip);
    ReleaseKeepsValid(w.s, tag, ip);
    OnlineIffLive(Apply(w, Close(tag, ip)), tag);
  }

  /** The offline report forgets exactly the users whose pending entry it carries. */
  lemma {:induction false} OfflineForgets(s: State, list: seq<OfflineUser>, tag: Tag)
    requires Valid(s)
    ensures var t, told := MarkOffline(s, list), tag in s.pending && OfflineUser(tag, s.pending[tag]) in list;
      && (tag in t.pending <==> tag in s.pending && !told)
      && (tag in t.pending ==> t.pending[tag] == s.pending[tag])
      && ReportedOf(t, tag) == if told then {} else ReportedOf(s, tag)
  {
    assert ValidAt(s, tag);
    if list != [] {
      var init, last := list[..|list| - 1], list[|list| - 1];
      OfflineForgets(s, init, tag);
      MarkOfflineKeepsValid(s, init);
      assert list == init + [last];
    }
  }

  lemma {:induction false} AcceptedIff(list: seq<OnlineUser>, uid: int, ip: string)
    ensures ip in AcceptedIps(list, uid) <==> exists i :: 0 <= i < |list| && list[i].uid == uid && Trim(list[i].ip) == ip
  {
    if list != [] {
      var init := list[..|list| - 1];
      AcceptedIff(init, uid, ip);
      assert forall i | 0 <= i < |init| :: init[i] == list[i];
    }
  }

  /** The online report: an online user's reported IPs become the ones the panel took for its id, anyone else's stay. */
  lemma OnlineReports(s: State, list: seq<OnlineUser>, tag: Tag, ip: string)
    ensures var t := MarkOnline(s, list);
      && t.online == s.online && t.pending == s.pending
      && (ip in ReportedOf(t, tag) <==>
            if tag in s.online then exists i :: 0 <= i < |list| && list[i].uid == s.online[tag].uid && Trim(list[i].ip) == ip
            else ip in ReportedOf(s, tag))
  {
    if tag in s.online { AcceptedIff(list, s.online[tag].uid, ip); }
  }

  lemma {:induction false} TagsOfIff(node: string, users: seq<User>, tag: Tag)
    ensures tag in TagsOf(node, users) <==> exists i :: 0 <= i < |users| && UserTag(node, users[i].uuid) == tag
  {
    if users != [] {
      var init := users[..|users| - 1];
      TagsOfIff(node, init, tag);
      assert forall i | 0 <= i < |init| :: init[i] == users[i];
    }
  }

  lemma {:induction false} IdsOfIff(users: seq<User>, id: int)
    ensures id in IdsOf(users) <==> exists i :: 0 <= i < |users| && users[i].id == id
  {
    if users != [] {
      var init := users[..|users| - 1];
      IdsOfIff(init, id);
      assert forall i | 0 <= i < |init| :: init[i] == users[i];
    }
  }

  /** A change of users forgets the devices of exactly the deleted ones, by tag, and their alive counts, by id. */
  lemma DeletedAreForgotten(s: State, node: string, added: seq<User>, deleted: seq<User>, modified: seq<User>, tag: Tag, id: int)
    ensures var t := Update(s, node, added, deleted, modified);
      var gone := exists i :: 0 <= i < |deleted| && UserTag(node, deleted[i].uuid) == tag;
      && IpsOf(t, tag) == (if gone then map[] else IpsOf(s, tag))
      && ReportedOf(t, tag) == (if gone then {} else ReportedOf(s, tag))
      && (tag in t.pending <==> tag in s.pending && !gone) && (tag in t.pending ==> t.pending[tag] == s.pending[tag])
      && (id in t.alive <==> id in s.alive && !exists i :: 0 <= i < |deleted| && deleted[i].id == id)
      && (id in t.alive ==> t.alive[id] == s.alive[id])
  {
    TagsOfIff(node, deleted, tag);
    IdsOfIff(deleted, id);
  }

  // ---------------------------------------------------------------------------
  // Small things every table entry and every key depends on

  /** An IP loses the IPv4-mapped prefix, once, and nothing else. */
  lemma TrimIff(ip: string)
    ensures forall rest: string :: Trim(MAPPED + rest) == rest
    ensures Trim(ip) == ip <==> !(MAPPED <= ip)
  {
    forall rest: string ensures Trim(MAPPED + rest) == rest {
      assert (MAPPED + rest)[|MAPPED|..] == rest;
    }
    assert |MAPPED| > 0;
  }

  /** Megabits per second into whole bytes per second, rounded down; no rate at all without a limit. */
  lemma BucketRate(speed: int)
    ensures Bucket(speed) == None <==> speed <= 0
    ensures Bucket(speed).Some? ==> 8 * Bucket(speed).value <= 1000000 * speed < 8 * Bucket(speed).value + 8
  {
  }
}
