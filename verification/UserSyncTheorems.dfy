/** Applying the difference of two user lists leaves what the new list alone would have built. */
module UserSyncTheorems {
  import opened Common
  import opened Panel
  import opened Accounting
  import opened UserSync
  import Limiter

  // ---------------------------------------------------------------------------
  // Runtime services

  ghost predicate HasId(ws: set<Who>, id: int) { exists w :: w in ws && w.id == id }

  ghost predicate HasKey(norm: Uuid -> Uuid, ws: set<Who>, k: Uuid) { exists w :: w in ws && norm(w.uuid) == k }

  ghost predicate UsersAgree(users: map<int, User>, ws: set<Who>) {
    && (forall id :: id in users <==> HasId(ws, id))
    && (forall w | w in ws :: w.id in users && users[w.id].uuid == w.uuid)
  }

  ghost predicate IndexAgrees(norm: Uuid -> Uuid, index: map<Uuid, int>, ws: set<Who>) {
    && (forall k :: k in index <==> HasKey(norm, ws, k))
    && (forall w | w in ws :: norm(w.uuid) in index && index[norm(w.uuid)] == w.id)
  }

  /** Users and index are exactly those of a set of (id, UUID) pairs. */
  ghost predicate Agrees(norm: Uuid -> Uuid, s: State, ws: set<Who>) {
    UsersAgree(s.users, ws) && IndexAgrees(norm, s.byUuid, ws)
  }

  lemma DeleteAgrees(norm: Uuid -> Uuid, s: State, ws: set<Who>, u: User)
    requires Agrees(norm, s, ws) && DistinctPairs(norm, ws + {WhoIs(u)})
    ensures Agrees(norm, DeleteUser(norm, s, u), ws - {WhoIs(u)})
  {
    var t, left := DeleteUser(norm, s, u), ws - {WhoIs(u)};
    SameIdSamePair(norm, s, ws, u);
    forall id ensures id in t.users <==> HasId(left, id) {
      if HasId(ws, id) && id != u.id {
        var w :| w in ws && w.id == id;
        assert w in left;
      }
    }
    forall k ensures k in t.byUuid <==> HasKey(norm, left, k) {
      if HasKey(norm, ws, k) && k != norm(u.uuid) {
        var w :| w in ws && norm(w.uuid) == k;
        assert w in left;
      }
    }
  }

  lemma SameIdSamePair(norm: Uuid -> Uuid, s: State, ws: set<Who>, u: User)
    requires Agrees(norm, s, ws) && DistinctPairs(norm, ws + {WhoIs(u)})
    ensures u.id in s.users ==> WhoIs(u) in ws && s.users[u.id].uuid == u.uuid
    ensures norm(u.uuid) in s.byUuid ==> WhoIs(u) in ws
  {
    var more := ws + {WhoIs(u)};
    assert WhoIs(u) in more;
    if u.id in s.users {
      assert HasId(ws, u.id);
      var w :| w in ws && w.id == u.id;
      assert w in more && w == WhoIs(u);
    }
    if norm(u.uuid) in s.byUuid {
      assert HasKey(norm, ws, norm(u.uuid));
      var w :| w in ws && norm(w.uuid) == norm(u.uuid);
      assert w in more && w == WhoIs(u);
    }
  }

  lemma AddAgrees(norm: Uuid -> Uuid, s: State, ws: set<Who>, u: User)
    requires Agrees(norm, s, ws) && DistinctPairs(norm, ws + {WhoIs(u)})
    ensures Agrees(norm, AddUser(norm, s, u), ws + {WhoIs(u)})
  {
    SameIdSamePair(norm, s, ws, u);
    UsersGrow(norm, s.users, ws, u);
    IndexGrows(norm, s.byUuid, ws, u);
  }

  lemma UsersGrow(norm: Uuid -> Uuid, users: map<int, User>, ws: set<Who>, u: User)
    requires UsersAgree(users, ws) && DistinctPairs(norm, ws + {WhoIs(u)})
    ensures UsersAgree(users[u.id := u], ws + {WhoIs(u)})
  {
    var more := ws + {WhoIs(u)};
    HasMore(norm, ws, WhoIs(u));
    forall w | w in more ensures w.id in users[u.id := u] && users[u.id := u][w.id].uuid == w.uuid {
      assert WhoIs(u) in more;
    }
  }

  lemma IndexGrows(norm: Uuid -> Uuid, index: map<Uuid, int>, ws: set<Who>, u: User)
    requires IndexAgrees(norm, index, ws) && DistinctPairs(norm, ws + {WhoIs(u)})
    ensures IndexAgrees(norm, index[norm(u.uuid) := u.id], ws + {WhoIs(u)})
  {
    var more, grown := ws + {WhoIs(u)}, index[norm(u.uuid) := u.id];
    HasMore(norm, ws, WhoIs(u));
    forall w | w in more ensures norm(w.uuid) in grown && grown[norm(w.uuid)] == w.id {
      assert WhoIs(u) in more;
    }
  }

  lemma HasMore(norm: Uuid -> Uuid, ws: set<Who>, v: Who)
    ensures forall id :: HasId(ws + {v}, id) <==> HasId(ws, id) || id == v.id
    ensures forall k :: HasKey(norm, ws + {v}, k) <==> HasKey(norm, ws, k) || k == norm(v.uuid)
  {
    var more := ws + {v};
    assert v in more;
    forall id ensures HasId(more, id) <==> HasId(ws, id) || id == v.id {
      if HasId(ws, id) {
        var w :| w in ws && w.id == id;
        assert w in more;
      }
    }
    forall k ensures HasKey(norm, more, k) <==> HasKey(norm, ws, k) || k == norm(v.uuid) {
      if HasKey(norm, ws, k) {
        var w :| w in ws && norm(w.uuid) == k;
        assert w in more;
      }
    }
  }

  lemma {:induction false} DeleteAllAgrees(norm: Uuid -> Uuid, s: State, ws: set<Who>, users: seq<User>)
    requires Agrees(norm, s, ws) && DistinctPairs(norm, ws) && Pairs(users) <= ws
    ensures Agrees(norm, DeleteUsers(norm, s, users), ws - Pairs(users))
  {
    if users == [] {
      assert ws - {} == ws;
    } else {
      var init, u := users[..|users| - 1], users[|users| - 1];
      DeleteAllAgrees(norm, s, ws, init);
      assert ws - Pairs(init) + {WhoIs(u)} <= ws;
      DeleteAgrees(norm, DeleteUsers(norm, s, init), ws - Pairs(init), u);
      assert ws - Pairs(users) == ws - Pairs(init) - {WhoIs(u)};
    }
  }

  lemma {:induction false} AddAllAgrees(norm: Uuid -> Uuid, s: State, ws: set<Who>, users: seq<User>)
    requires Agrees(norm, s, ws) && DistinctPairs(norm, ws + Pairs(users))
    ensures Agrees(norm, AddUsers(norm, s, users), ws + Pairs(users))
  {
    if users == [] {
      assert ws + {} == ws;
    } else {
      var init, u := users[..|users| - 1], users[|users| - 1];
      assert ws + Pairs(init) <= ws + Pairs(users);
      AddAllAgrees(norm, s, ws, init);
      assert ws + Pairs(users) == ws + Pairs(init) + {WhoIs(u)};
      AddAgrees(norm, AddUsers(norm, s, init), ws + Pairs(init), u);
    }
  }

  // ---------------------------------------------------------------------------
  // Limits

  /** The user whose limits a key ends up with, if any of the list has it. */
  lemma {:induction false} StoreLookup(m: map<Limiter.Tag, Limiter.LimitInfo>, tag: string, users: seq<User>, key: Limiter.Tag)
    returns (u: Option<User>)
    ensures var r := Limiter.StoreAll(m, tag, users);
      match u
      case Some(v) => v in users && Limiter.UserTag(tag, v.uuid) == key && key in r && r[key] == Limiter.NewInfo(v)
      case None => (key in r <==> key in m) && (key in m ==> r[key] == m[key])
                   && forall v | v in users :: Limiter.UserTag(tag, v.uuid) != key
  {
    if users == [] { return None; }
    var init, last := users[..|users| - 1], users[|users| - 1];
    u := StoreLookup(m, tag, init, key);
    assert users == init + [last];
    if Limiter.UserTag(tag, last.uuid) == key { u := Some(last); }
  }

  lemma {:induction false} ModifyLookup(m: map<Limiter.Tag, Limiter.LimitInfo>, tag: string, users: seq<User>, key: Limiter.Tag)
    returns (u: Option<User>)
    ensures var r := Limiter.Modify(m, tag, users);
      && (key in r <==> key in m)
      && match u
         case Some(v) => v in users && Limiter.UserTag(tag, v.uuid) == key
           && (key in m ==> r[key] == Limiter.NewInfo(v).(uid := m[key].uid))
         case None => (key in m ==> r[key] == m[key]) && forall v | v in users :: Limiter.UserTag(tag, v.uuid) != key
  {
    if users == [] { return None; }
    var init, last := users[..|users| - 1], users[|users| - 1];
    u := ModifyLookup(m, tag, init, key);
    assert users == init + [last];
    if Limiter.UserTag(tag, last.uuid) == key { u := Some(last); }
  }

  lemma {:induction false} TagsLookup(tag: string, users: seq<User>, key: Limiter.Tag)
    ensures key in Limiter.TagsOf(tag, users) <==> exists v :: v in users && Limiter.UserTag(tag, v.uuid) == key
  {
    if users != [] {
      var init, last := users[..|users| - 1], users[|users| - 1];
      TagsLookup(tag, init, key);
      assert users == init + [last];
      if key in Limiter.TagsOf(tag, init) {
        var v :| v in init && Limiter.UserTag(tag, v.uuid) == key;
        assert v in users;
      }
      assert last in users;
    }
  }

  lemma TagIsInjective(tag: string, a: Uuid, b: Uuid)
    requires Limiter.UserTag(tag, a) == Limiter.UserTag(tag, b)
    ensures a == b
  {
    assert Limiter.UserTag(tag, a)[|tag| + 1..] == a && Limiter.UserTag(tag, b)[|tag| + 1..] == b;
  }

  function LimitsOf(tag: string, users: seq<User>): map<Limiter.Tag, Limiter.LimitInfo> {
    Limiter.StoreAll(map[], tag, users)
  }

  function UpdatedLimits(m: map<Limiter.Tag, Limiter.LimitInfo>, tag: string, added: seq<User>, deleted: seq<User>, modified: seq<User>)
    : map<Limiter.Tag, Limiter.LimitInfo>
  {
    Limiter.StoreAll(Limiter.Modify(m - Limiter.TagsOf(tag, deleted), tag, modified), tag, added)
  }

  /** One key of the limiter's table, looked up in the list. */
  lemma LimitOf(tag: string, users: seq<User>, u: User)
    requires DistinctUuids(users)
    ensures var key, m := Limiter.UserTag(tag, u.uuid), ByUuidMap(users);
      (key in LimitsOf(tag, users) <==> u.uuid in m) && (u.uuid in m ==> LimitsOf(tag, users)[key] == Limiter.NewInfo(m[u.uuid]))
  {
    var key, m := Limiter.UserTag(tag, u.uuid), ByUuidMap(users);
    var v := StoreLookup(map[], tag, users, key);
    match v {
      case Some(w) =>
        TagIsInjective(tag, w.uuid, u.uuid);
        InList(users, w);
      case None =>
    }
  }

  /** A user of the new list: added with fresh limits, modified, or unchanged. */
  lemma PresentLimit(tag: string, old_: seq<User>, new_: seq<User>, rest: seq<User>, u: User)
    requires DistinctUuids(old_) && DistinctUuids(new_) && Lists(rest, Compare(old_, new_).left) && u in new_
    ensures var d := Compare(old_, new_);
      var r := UpdatedLimits(LimitsOf(tag, old_), tag, d.added, d.deleted + rest, d.modified);
      Limiter.UserTag(tag, u.uuid) in r && r[Limiter.UserTag(tag, u.uuid)] == Limiter.NewInfo(u)
  {
    var d, m, key := Compare(old_, new_), ByUuidMap(old_), Limiter.UserTag(tag, u.uuid);
    var deleted := d.deleted + rest;
    var cut := LimitsOf(tag, old_) - Limiter.TagsOf(tag, deleted);
    CompareIsDifference(old_, new_, rest, u);
    InList(new_, u);
    LimitOf(tag, old_, u);
    var a := StoreLookup(Limiter.Modify(cut, tag, d.modified), tag, d.added, key);
    var c := ModifyLookup(cut, tag, d.modified, key);
    if a.Some? {
      SameUser(tag, old_, new_, rest, a.value, u);
    } else {
      assert u !in d.added;
      KeptStays(tag, old_, new_, rest, u);
      if c.Some? { SameUser(tag, old_, new_, rest, c.value, u); }
    }
  }

  /** Users the loop put into a list come from the new list, which has each UUID once. */
  lemma SameUser(tag: string, old_: seq<User>, new_: seq<User>, rest: seq<User>, v: User, u: User)
    requires DistinctUuids(old_) && DistinctUuids(new_) && Lists(rest, Compare(old_, new_).left) && u in new_
    requires v in Compare(old_, new_).added || v in Compare(old_, new_).modified
    requires Limiter.UserTag(tag, v.uuid) == Limiter.UserTag(tag, u.uuid)
    ensures v == u
  {
    CompareIsDifference(old_, new_, rest, v);
    InList(new_, v);
    InList(new_, u);
    TagIsInjective(tag, v.uuid, u.uuid);
  }

  lemma KeptStays(tag: string, old_: seq<User>, new_: seq<User>, rest: seq<User>, u: User)
    requires DistinctUuids(old_) && DistinctUuids(new_) && Lists(rest, Compare(old_, new_).left)
    requires u in new_ && Kept(ByUuidMap(old_), u)
    ensures Limiter.UserTag(tag, u.uuid) !in Limiter.TagsOf(tag, Compare(old_, new_).deleted + rest)
  {
    var deleted, key := Compare(old_, new_).deleted + rest, Limiter.UserTag(tag, u.uuid);
    TagsLookup(tag, deleted, key);
    if v :| v in deleted && Limiter.UserTag(tag, v.uuid) == key {
      CompareIsDifference(old_, new_, rest, v);
      TagIsInjective(tag, v.uuid, u.uuid);
      InList(old_, v);
      InList(new_, u);
      assert false;
    }
  }

  /** A UUID the new list lacks: its entry is gone. */
  lemma AbsentLimit(tag: string, old_: seq<User>, new_: seq<User>, rest: seq<User>, key: Limiter.Tag)
    requires DistinctUuids(old_) && DistinctUuids(new_) && Lists(rest, Compare(old_, new_).left)
    requires forall u | u in new_ :: Limiter.UserTag(tag, u.uuid) != key
    ensures var d := Compare(old_, new_);
      key !in UpdatedLimits(LimitsOf(tag, old_), tag, d.added, d.deleted + rest, d.modified)
  {
    var d := Compare(old_, new_);
    var deleted := d.deleted + rest;
    var cut := LimitsOf(tag, old_) - Limiter.TagsOf(tag, deleted);
    var a := StoreLookup(Limiter.Modify(cut, tag, d.modified), tag, d.added, key);
    var c := ModifyLookup(cut, tag, d.modified, key);
    if a.Some? { CompareIsDifference(old_, new_, rest, a.value); }
    var o := StoreLookup(map[], tag, old_, key);
    if o.Some? {
      CompareIsDifference(old_, new_, rest, o.value);
      KeysOfList(new_, o.value.uuid);
      forall i | 0 <= i < |new_| ensures new_[i].uuid != o.value.uuid { assert new_[i] in new_; }
      TagsLookup(tag, deleted, key);
    }
  }

  lemma LimitsAreRebuilt(tag: string, old_: seq<User>, new_: seq<User>, rest: seq<User>)
    requires DistinctUuids(old_) && DistinctUuids(new_) && Lists(rest, Compare(old_, new_).left)
    ensures var d := Compare(old_, new_);
      UpdatedLimits(LimitsOf(tag, old_), tag, d.added, d.deleted + rest, d.modified) == LimitsOf(tag, new_)
  {
    var d := Compare(old_, new_);
    var r, want := UpdatedLimits(LimitsOf(tag, old_), tag, d.added, d.deleted + rest, d.modified), LimitsOf(tag, new_);
    forall key ensures (key in r <==> key in want) && (key in want ==> r[key] == want[key]) {
      var u := StoreLookup(map[], tag, new_, key);
      match u {
        case Some(v) => PresentLimit(tag, old_, new_, rest, v);
        case None => AbsentLimit(tag, old_, new_, rest, key);
      }
    }
  }

  // ---------------------------------------------------------------------------
  // Any number of lists

  /** The runtime services and the limiter's table. */
  datatype Services = Services(s: State, limits: map<Limiter.Tag, Limiter.LimitInfo>)

  /** One round of user synchronisation; `rest` is the order in which the last loop met the old users left over. */
  datatype Round = Round(list: seq<User>, rest: seq<User>)

  function Sync(norm: Uuid -> Uuid, tag: string, v: Services, old_: seq<User>, r: Round): Services {
    var d := Compare(old_, r.list);
    Services(AddUsers(norm, DeleteUsers(norm, v.s, d.deleted + r.rest), d.added),
             UpdatedLimits(v.limits, tag, d.added, d.deleted + r.rest, d.modified))
  }

  function Last(first: seq<User>, rounds: seq<Round>): seq<User> {
    if rounds == [] then first else rounds[|rounds| - 1].list
  }

  function SyncAll(norm: Uuid -> Uuid, tag: string, first: seq<User>, rounds: seq<Round>): Services {
    if rounds == [] then Built(norm, tag, first)
    else
      var init := rounds[..|rounds| - 1];
      Sync(norm, tag, SyncAll(norm, tag, first, init), Last(first, init), rounds[|rounds| - 1])
  }

  /** What a list alone builds. */
  function Built(norm: Uuid -> Uuid, tag: string, users: seq<User>): Services {
    Services(AddUsers(norm, Fresh(), users), LimitsOf(tag, users))
  }

  ghost predicate GoodRounds(norm: Uuid -> Uuid, first: seq<User>, rounds: seq<Round>) {
    && Distinct(norm, first) && (forall i | 0 <= i < |rounds| :: Distinct(norm, rounds[i].list))
    && (forall i | 0 <= i < |rounds| :: Lists(rounds[i].rest, Compare(Last(first, rounds[..i]), rounds[i].list).left))
  }

  lemma BuiltAgrees(norm: Uuid -> Uuid, tag: string, users: seq<User>)
    requires Distinct(norm, users)
    ensures Agrees(norm, Built(norm, tag, users).s, Pairs(users))
  {
    PairsAreDistinct(norm, users);
    assert {} + Pairs(users) == Pairs(users);
    AddAllAgrees(norm, Fresh(), {}, users);
  }

  lemma SyncAgrees(norm: Uuid -> Uuid, s: State, old_: seq<User>, new_: seq<User>, rest: seq<User>)
    requires Distinct(norm, old_) && Distinct(norm, new_) && Lists(rest, Compare(old_, new_).left)
    requires Agrees(norm, s, Pairs(old_))
    ensures var d := Compare(old_, new_);
      Agrees(norm, AddUsers(norm, DeleteUsers(norm, s, d.deleted + rest), d.added), Pairs(new_))
  {
    var d := Compare(old_, new_);
    var deleted := d.deleted + rest;
    ComparePairs(norm, old_, new_, rest);
    PairsAreDistinct(norm, old_);
    PairsAreDistinct(norm, new_);
    DeleteAllAgrees(norm, s, Pairs(old_), deleted);
    assert Pairs(old_) - Pairs(deleted) + Pairs(d.added) == Pairs(new_);
    AddAllAgrees(norm, DeleteUsers(norm, s, deleted), Pairs(old_) - Pairs(deleted), d.added);
  }

  lemma GoodPrefix(norm: Uuid -> Uuid, first: seq<User>, rounds: seq<Round>)
    requires GoodRounds(norm, first, rounds) && rounds != []
    ensures var init, r := rounds[..|rounds| - 1], rounds[|rounds| - 1];
      && GoodRounds(norm, first, init) && Distinct(norm, Last(first, init)) && Distinct(norm, r.list)
      && Lists(r.rest, Compare(Last(first, init), r.list).left)
  {
    var init := rounds[..|rounds| - 1];
    forall i | 0 <= i < |init| ensures Lists(init[i].rest, Compare(Last(first, init[..i]), init[i].list).left) {
      assert init[..i] == rounds[..i];
    }
  }

  /**
   However often the panel's list changed, the services hold exactly the users
   and the index of the last list, and the limiter exactly its limits, as if
   both had been built from it.
   */
  lemma {:induction false} IncrementalIsRebuild(norm: Uuid -> Uuid, tag: string, first: seq<User>, rounds: seq<Round>)
    requires GoodRounds(norm, first, rounds)
    ensures var v, list := SyncAll(norm, tag, first, rounds), Last(first, rounds);
      && Agrees(norm, v.s, Pairs(list)) && Agrees(norm, Built(norm, tag, list).s, Pairs(list))
      && v.limits == Built(norm, tag, list).limits
  {
    if rounds == [] {
      BuiltAgrees(norm, tag, first);
    } else {
      var init, r := rounds[..|rounds| - 1], rounds[|rounds| - 1];
      GoodPrefix(norm, first, rounds);
      IncrementalIsRebuild(norm, tag, first, init);
      BuiltAgrees(norm, tag, r.list);
      SyncAgrees(norm, SyncAll(norm, tag, first, init).s, Last(first, init), r.list, r.rest);
      PairsAreDistinct(norm, Last(first, init));
      PairsAreDistinct(norm, r.list);
      LimitsAreRebuilt(tag, Last(first, init), r.list, r.rest);
    }
  }

  /** Two agreeing states know the same users under the same UUIDs. */
  lemma AgreeingStatesAreEqual(norm: Uuid -> Uuid, s: State, t: State, ws: set<Who>)
    requires Agrees(norm, s, ws) && Agrees(norm, t, ws)
    ensures s.byUuid == t.byUuid && s.users.Keys == t.users.Keys
    ensures forall id | id in s.users :: s.users[id].uuid == t.users[id].uuid
  {
    forall id ensures id in s.users <==> id in t.users { assert HasId(ws, id) <==> id in s.users; }
    forall id | id in s.users ensures s.users[id].uuid == t.users[id].uuid {
      assert HasId(ws, id);
      var w :| w in ws && w.id == id;
    }
    forall k ensures k in s.byUuid <==> k in t.byUuid { assert HasKey(norm, ws, k) <==> k in s.byUuid; }
    forall k | k in s.byUuid ensures s.byUuid[k] == t.byUuid[k] {
      assert HasKey(norm, ws, k);
      var w :| w in ws && norm(w.uuid) == k;
    }
  }

  /** Linear search of a list by normalised UUID. */
  function Search(norm: Uuid -> Uuid, users: seq<User>, uuid: Uuid): Option<Who> {
    if users == [] then None
    else if norm(users[0].uuid) == norm(uuid) then Some(WhoIs(users[0]))
    else Search(norm, users[1..], uuid)
  }

  lemma {:induction false} SearchFinds(norm: Uuid -> Uuid, users: seq<User>, uuid: Uuid)
    ensures match Search(norm, users, uuid)
      case Some(w) => norm(w.uuid) == norm(uuid) && exists i :: 0 <= i < |users| && WhoIs(users[i]) == w
      case None => forall i | 0 <= i < |users| :: norm(users[i].uuid) != norm(uuid)
  {
    if users != [] && norm(users[0].uuid) != norm(uuid) {
      SearchFinds(norm, users[1..], uuid);
      match Search(norm, users[1..], uuid) {
        case Some(w) =>
          var i :| 0 <= i < |users[1..]| && WhoIs(users[1..][i]) == w;
          assert WhoIs(users[i + 1]) == w;
        case None =>
          forall i | 0 <= i < |users| ensures norm(users[i].uuid) != norm(uuid) {
            if i > 0 { assert users[1..][i - 1] == users[i]; }
          }
      }
    }
  }

  /** UserByUUID finds what a linear search of the current list finds. */
  lemma LookupIsSearch(norm: Uuid -> Uuid, s: State, users: seq<User>, uuid: Uuid)
    requires Distinct(norm, users) && Agrees(norm, s, Pairs(users))
    ensures match ByUuid(norm, s, uuid)
      case Some(u) => Search(norm, users, uuid) == Some(Who(s.byUuid[norm(uuid)], u.uuid))
      case None => Search(norm, users, uuid) == None
  {
    SearchFinds(norm, users, uuid);
    match Search(norm, users, uuid) {
      case Some(w) => InPairs(users, w);
      case None =>
        if HasKey(norm, Pairs(users), norm(uuid)) {
          var w :| w in Pairs(users) && norm(w.uuid) == norm(uuid);
          InPairs(users, w);
          assert false;
        }
    }
  }

  // ---------------------------------------------------------------------------
  // Adding without deleting

  /** The user is known under another UUID. */
  predicate Renamed(users: map<int, User>, u: User) { u.id in users && users[u.id].uuid != u.uuid }

  /** Adding user j frees the index entry that adding user i had just made. */
  predicate Steals(norm: Uuid -> Uuid, users: map<int, User>, added: seq<User>, i: nat, j: nat)
    requires i < |added| && j < |added|
  {
    i < j && Renamed(users, added[j]) && norm(users[added[j].id].uuid) == norm(added[i].uuid)
  }

  ghost predicate StolenBefore(norm: Uuid -> Uuid, users: map<int, User>, added: seq<User>, i: nat, k: nat)
    requires i < |added| && k <= |added|
  {
    exists j: nat :: j < k && Steals(norm, users, added, i, j)
  }

  ghost predicate SetBefore(norm: Uuid -> Uuid, added: seq<User>, x: Uuid, k: nat)
    requires k <= |added|
  {
    exists i: nat :: i < k && norm(added[i].uuid) == x
  }

  ghost predicate FreedBefore(norm: Uuid -> Uuid, users: map<int, User>, added: seq<User>, x: Uuid, k: nat)
    requires k <= |added|
  {
    exists j: nat :: j < k && Renamed(users, added[j]) && norm(users[added[j].id].uuid) == x
  }

  /** One index entry after the first k users were added: set and not stolen, freed, or as before. */
  ghost predicate EntryAfter(norm: Uuid -> Uuid, s: State, added: seq<User>, x: Uuid, k: nat, index: map<Uuid, int>)
    requires k <= |added|
  {
    && (forall i: nat | i < k && norm(added[i].uuid) == x ::
          (x in index <==> !StolenBefore(norm, s.users, added, i, k)) && (x in index ==> index[x] == added[i].id))
    && (!SetBefore(norm, added, x, k) && FreedBefore(norm, s.users, added, x, k) ==> x !in index)
    && (!SetBefore(norm, added, x, k) && !FreedBefore(norm, s.users, added, x, k) ==> Same(index, s.byUuid, x))
  }

  predicate Same(a: map<Uuid, int>, b: map<Uuid, int>, x: Uuid) {
    (x in a <==> x in b) && (x in a ==> a[x] == b[x])
  }

  /** An id that is in the list has an entry of the list, any other one its old entry. */
  ghost predicate UserAfter(before: map<int, User>, users: seq<User>, id: int, after: map<int, User>) {
    if u :| u in users && u.id == id then id in after && after[id] in users && after[id].id == id
    else (id in after <==> id in before) && (id in after ==> after[id] == before[id])
  }

  lemma {:induction false} UsersAfter(norm: Uuid -> Uuid, s: State, users: seq<User>, id: int)
    ensures UserAfter(s.users, users, id, AddUsers(norm, s, users).users)
  {
    if users != [] {
      UsersAfter(norm, s, users[..|users| - 1], id);
      assert users == users[..|users| - 1] + [users[|users| - 1]];
    }
  }

  lemma StepAdds(norm: Uuid -> Uuid, s: State, added: seq<User>, k: nat)
    requires k < |added| && Distinct(norm, added)
    ensures var t, u := AddUsers(norm, s, added[..k]), added[k];
      AddUsers(norm, s, added[..k + 1]).byUuid
      == (if Renamed(s.users, u) then t.byUuid - {norm(s.users[u.id].uuid)} else t.byUuid)[norm(u.uuid) := u.id]
  {
    var u := added[k];
    assert added[..k + 1][..k] == added[..k];
    UsersAfter(norm, s, added[..k], u.id);
    assert forall v | v in added[..k] :: v.id != u.id;
    AddOne(norm, AddUsers(norm, s, added[..k]), s.users, u);
  }

  lemma AddOne(norm: Uuid -> Uuid, t: State, users: map<int, User>, u: User)
    requires u.id in t.users <==> u.id in users
    requires u.id in users ==> t.users[u.id] == users[u.id]
    ensures AddUser(norm, t, u).byUuid
      == (if Renamed(users, u) then t.byUuid - {norm(users[u.id].uuid)} else t.byUuid)[norm(u.uuid) := u.id]
  {
  }

  lemma {:induction false} IndexAfter(norm: Uuid -> Uuid, s: State, added: seq<User>, x: Uuid, k: nat)
    requires k <= |added| && Distinct(norm, added)
    ensures EntryAfter(norm, s, added, x, k, AddUsers(norm, s, added[..k]).byUuid)
  {
    if k > 0 {
      var j := k - 1;
      IndexAfter(norm, s, added, x, j);
      StepAdds(norm, s, added, j);
      EntryStep(norm, s, added, x, j, AddUsers(norm, s, added[..j]).byUuid);
    }
  }

  lemma EntryStep(norm: Uuid -> Uuid, s: State, added: seq<User>, x: Uuid, k: nat, index: map<Uuid, int>)
    requires k < |added| && Distinct(norm, added) && EntryAfter(norm, s, added, x, k, index)
    ensures var u := added[k];
      EntryAfter(norm, s, added, x, k + 1,
        (if Renamed(s.users, u) then index - {norm(s.users[u.id].uuid)} else index)[norm(u.uuid) := u.id])
  {
    var u := added[k];
    var next := (if Renamed(s.users, u) then index - {norm(s.users[u.id].uuid)} else index)[norm(u.uuid) := u.id];
    forall i: nat | i < k + 1 && norm(added[i].uuid) == x
      ensures (x in next <==> !StolenBefore(norm, s.users, added, i, k + 1)) && (x in next ==> next[x] == added[i].id)
    {
      if i < k {
        assert norm(u.uuid) != x;
        if StolenBefore(norm, s.users, added, i, k) {
          var j: nat :| j < k && Steals(norm, s.users, added, i, j);
          assert j < k + 1 && Steals(norm, s.users, added, i, j);
        }
        if Renamed(s.users, u) && norm(s.users[u.id].uuid) == x { assert Steals(norm, s.users, added, i, k); }
      }
    }
    if norm(u.uuid) == x {
      assert SetBefore(norm, added, x, k + 1);
    } else {
      assert SetBefore(norm, added, x, k) ==> SetBefore(norm, added, x, k + 1);
      if FreedBefore(norm, s.users, added, x, k) {
        var j: nat :| j < k && Renamed(s.users, added[j]) && norm(s.users[added[j].id].uuid) == x;
        assert j < k + 1 && Renamed(s.users, added[j]);
      }
      if Renamed(s.users, u) && norm(s.users[u.id].uuid) == x { assert FreedBefore(norm, s.users, added, x, k + 1); }
    }
  }

  ghost predicate HasIdIn(users: seq<User>, id: int) { exists u :: u in users && u.id == id }

  /** The pairs once the added users have replaced those with their ids. */
  ghost function Replaced(ws: set<Who>, added: seq<User>): set<Who> {
    (set w | w in ws && !HasIdIn(added, w.id)) + Pairs(added)
  }

  ghost predicate NothingStolen(norm: Uuid -> Uuid, s: State, added: seq<User>) {
    forall i: nat | i < |added| :: !StolenBefore(norm, s.users, added, i, |added|)
  }

  /**
   The added-user loop alone, with nothing deleted first: the index is right
   afterwards if and only if no added user takes over the UUID that a user
   added later has just given up.
   */
  lemma AddedAloneIff(norm: Uuid -> Uuid, s: State, ws: set<Who>, added: seq<User>)
    requires Agrees(norm, s, ws) && DistinctPairs(norm, ws) && Distinct(norm, added) && DistinctPairs(norm, Replaced(ws, added))
    ensures IndexAgrees(norm, AddUsers(norm, s, added).byUuid, Replaced(ws, added)) <==> NothingStolen(norm, s, added)
  {
    var index, want := AddUsers(norm, s, added).byUuid, Replaced(ws, added);
    assert added[..|added|] == added;
    if IndexAgrees(norm, index, want) {
      forall i: nat | i < |added| ensures !StolenBefore(norm, s.users, added, i, |added|) {
        InPairs(added, WhoIs(added[i]));
        assert WhoIs(added[i]) in want;
        IndexAfter(norm, s, added, norm(added[i].uuid), |added|);
      }
    }
    if NothingStolen(norm, s, added) {
      forall w | w in want ensures norm(w.uuid) in index && index[norm(w.uuid)] == w.id {
        WantedIsThere(norm, s, ws, added, w);
      }
      forall k ensures k in index <==> HasKey(norm, want, k) {
        if HasKey(norm, want, k) {
          var w :| w in want && norm(w.uuid) == k;
        }
        if k in index { ThereIsWanted(norm, s, ws, added, k); }
      }
    }
  }

  lemma WantedIsThere(norm: Uuid -> Uuid, s: State, ws: set<Who>, added: seq<User>, w: Who)
    requires Agrees(norm, s, ws) && DistinctPairs(norm, ws) && Distinct(norm, added) && DistinctPairs(norm, Replaced(ws, added))
    requires NothingStolen(norm, s, added) && w in Replaced(ws, added)
    ensures var index := AddUsers(norm, s, added).byUuid; norm(w.uuid) in index && index[norm(w.uuid)] == w.id
  {
    var index, x := AddUsers(norm, s, added).byUuid, norm(w.uuid);
    assert added[..|added|] == added;
    IndexAfter(norm, s, added, x, |added|);
    InPairs(added, w);
    if w in Pairs(added) {
      var i: nat :| i < |added| && WhoIs(added[i]) == w;
      assert norm(added[i].uuid) == x;
    } else {
      NotSet(norm, ws, added, w);
      NotFreed(norm, s, ws, added, w);
    }
  }

  lemma NotSet(norm: Uuid -> Uuid, ws: set<Who>, added: seq<User>, w: Who)
    requires DistinctPairs(norm, Replaced(ws, added)) && w in ws && !HasIdIn(added, w.id)
    ensures !SetBefore(norm, added, norm(w.uuid), |added|)
  {
    assert w in Replaced(ws, added);
    forall i: nat | i < |added| ensures norm(added[i].uuid) != norm(w.uuid) {
      InPairs(added, WhoIs(added[i]));
      assert WhoIs(added[i]) in Replaced(ws, added) && added[i] in added;
    }
  }

  lemma NotFreed(norm: Uuid -> Uuid, s: State, ws: set<Who>, added: seq<User>, w: Who)
    requires Agrees(norm, s, ws) && DistinctPairs(norm, ws) && w in ws && !HasIdIn(added, w.id)
    ensures !FreedBefore(norm, s.users, added, norm(w.uuid), |added|)
  {
    forall j: nat | j < |added| && Renamed(s.users, added[j]) ensures norm(s.users[added[j].id].uuid) != norm(w.uuid) {
      assert HasId(ws, added[j].id);
      var v :| v in ws && v.id == added[j].id;
      assert added[j] in added && v != w;
    }
  }

  lemma ThereIsWanted(norm: Uuid -> Uuid, s: State, ws: set<Who>, added: seq<User>, k: Uuid)
    requires Agrees(norm, s, ws) && DistinctPairs(norm, ws) && Distinct(norm, added)
    requires NothingStolen(norm, s, added) && k in AddUsers(norm, s, added).byUuid
    ensures HasKey(norm, Replaced(ws, added), k)
  {
    assert added[..|added|] == added;
    IndexAfter(norm, s, added, k, |added|);
    if i: nat :| i < |added| && norm(added[i].uuid) == k {
      InPairs(added, WhoIs(added[i]));
      assert WhoIs(added[i]) in Replaced(ws, added);
    } else {
      assert k in s.byUuid && HasKey(norm, ws, k);
      var w :| w in ws && norm(w.uuid) == k;
      forall j: nat | j < |added| ensures added[j].id != w.id {
        if added[j].id == w.id { FreedBy(norm, s, ws, added, w, j); }
      }
      assert w in Replaced(ws, added);
    }
  }

  /** Giving a known user another UUID frees the old one. */
  lemma FreedBy(norm: Uuid -> Uuid, s: State, ws: set<Who>, added: seq<User>, w: Who, j: nat)
    requires Agrees(norm, s, ws) && w in ws && j < |added| && added[j].id == w.id && norm(added[j].uuid) != norm(w.uuid)
    ensures FreedBefore(norm, s.users, added, norm(w.uuid), |added|)
  {
    assert Renamed(s.users, added[j]) && norm(s.users[added[j].id].uuid) == norm(w.uuid);
  }

  /** It does happen: user 2 takes over the UUID of user 1, who is then given a new one. */
  lemma AddedLoopDropsAnEntry(norm: Uuid -> Uuid, a: Uuid, b: Uuid)
    requires norm(a) != norm(b)
    ensures var s := AddUsers(norm, Fresh(), [User(1, a, 0, 0)]);
      var t := AddUsers(norm, s, [User(2, a, 0, 0), User(1, b, 0, 0)]);
      2 in t.users && t.users[2].uuid == a && ByUuid(norm, t, a) == None
  {
    var u, v, w := User(1, a, 0, 0), User(2, a, 0, 0), User(1, b, 0, 0);
    var one, two, both := [u], [v], [v, w];
    assert one[..0] == [] && two[..0] == [] && both[..1] == two;
    var s := AddUsers(norm, Fresh(), one);
    assert s == AddUser(norm, AddUsers(norm, Fresh(), []), u);
    var m := AddUsers(norm, s, two);
    assert m == AddUser(norm, AddUsers(norm, s, []), v);
    assert AddUsers(norm, s, both) == AddUser(norm, m, w);
  }
}
