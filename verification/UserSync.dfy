/**
 User lists from the panel: the difference of two lists, and what applying it
 to the runtime services and the limiter amounts to.
 */
module UserSync {
  import opened Panel

  // ---------------------------------------------------------------------------
  // compareUserList

  /** The loop's results, and the old users it has not met. */
  datatype Diff = Diff(deleted: seq<User>, added: seq<User>, modified: seq<User>, left: map<Uuid, User>)

  function ByUuidMap(users: seq<User>): (m: map<Uuid, User>)
    ensures forall k | k in m :: m[k].uuid == k && m[k] in users
  {
    if users == [] then map[] else ByUuidMap(users[..|users| - 1])[users[|users| - 1].uuid := users[|users| - 1]]
  }

  function Meet(d: Diff, u: User): Diff {
    if u.uuid !in d.left then d.(added := d.added + [u])
    else
      var o, left := d.left[u.uuid], d.left - {u.uuid};
      if o.id != u.id then Diff(d.deleted + [o], d.added + [u], d.modified, left)
      else if o.deviceLimit != u.deviceLimit || o.speedLimit != u.speedLimit then
        Diff(d.deleted, d.added, d.modified + [u], left)
      else d.(left := left)
  }

  function MeetAll(d: Diff, users: seq<User>): Diff {
    if users == [] then d else Meet(MeetAll(d, users[..|users| - 1]), users[|users| - 1])
  }

  function Compare(old_: seq<User>, new_: seq<User>): Diff {
    MeetAll(Diff([], [], [], ByUuidMap(old_)), new_)
  }

  /** Each value of the map once, in some order. */
  ghost predicate Lists(users: seq<User>, m: map<Uuid, User>) {
    && (forall i | 0 <= i < |users| :: users[i].uuid in m && m[users[i].uuid] == users[i])
    && (forall i, j | 0 <= i < j < |users| :: users[i].uuid != users[j].uuid)
    && (forall k | k in m :: m[k] in users)
  }

  method CompareUserList(old_: seq<User>, new_: seq<User>)
    returns (deleted: seq<User>, added: seq<User>, modified: seq<User>)
    ensures var d := Compare(old_, new_);
      && d.deleted <= deleted && Lists(deleted[|d.deleted|..], d.left)
      && added == d.added && modified == d.modified
  {
    deleted, added, modified := [], [], [];
    var oldMap: map<Uuid, User> := map[];
    for i := 0 to |old_|
      invariant oldMap == ByUuidMap(old_[..i])
    {
      assert old_[..i + 1][..i] == old_[..i];
      oldMap := oldMap[old_[i].uuid := old_[i]];
    }
    assert old_[..|old_|] == old_;
    ghost var start := Diff([], [], [], oldMap);
    for i := 0 to |new_|
      invariant Diff(deleted, added, modified, oldMap) == MeetAll(start, new_[..i])
    {
      assert new_[..i + 1][..i] == new_[..i];
      var u := new_[i];
      if u.uuid !in oldMap {
        added := added + [u];
      } else {
        var o := oldMap[u.uuid];
        if o.id != u.id {
          deleted, added := deleted + [o], added + [u];
        } else if o.deviceLimit != u.deviceLimit || o.speedLimit != u.speedLimit {
          modified := modified + [u];
        }
        oldMap := oldMap - {u.uuid};
      }
    }
    assert new_[..|new_|] == new_;
    LeftKeysMatch(start, new_);
    var rest := Values(oldMap);
    assert (deleted + rest)[|deleted|..] == rest;
    deleted := deleted + rest;
  }

  /** The last loop: the values in whatever order the map yields them. */
  method Values(m: map<Uuid, User>) returns (users: seq<User>)
    requires forall k | k in m :: m[k].uuid == k
    ensures Lists(users, m)
  {
    users := [];
    var todo := m.Keys;
    while todo != {}
      invariant todo <= m.Keys
      invariant forall i | 0 <= i < |users| :: users[i].uuid in m && m[users[i].uuid] == users[i] && users[i].uuid !in todo
      invariant forall i, j | 0 <= i < j < |users| :: users[i].uuid != users[j].uuid
      invariant forall k | k in m && k !in todo :: m[k] in users
      decreases |todo|
    {
      var k :| k in todo;
      todo := todo - {k};
      users := users + [m[k]];
      assert users[|users| - 1] == m[k];
    }
  }

  lemma {:induction false} LeftKeysMatch(d: Diff, users: seq<User>)
    requires forall k | k in d.left :: d.left[k].uuid == k
    ensures forall k | k in MeetAll(d, users).left :: MeetAll(d, users).left[k].uuid == k
  {
    if users != [] { LeftKeysMatch(d, users[..|users| - 1]); }
  }

  // ---------------------------------------------------------------------------
  // What the difference is

  predicate DistinctUuids(users: seq<User>) {
    forall i, j | 0 <= i < |users| && 0 <= j < |users| && users[i].uuid == users[j].uuid :: i == j
  }

  predicate In(m: map<Uuid, User>, u: User) { u.uuid in m && m[u.uuid] == u }

  /** The UUID was there before, with the same id. */
  predicate Kept(m: map<Uuid, User>, u: User) { u.uuid in m && m[u.uuid].id == u.id }

  predicate NewLimits(o: User, u: User) { o.deviceLimit != u.deviceLimit || o.speedLimit != u.speedLimit }

  predicate HasUuid(users: seq<User>, k: Uuid) { exists i :: 0 <= i < |users| && users[i].uuid == k }

  lemma LastIsNew(users: seq<User>)
    requires DistinctUuids(users) && users != []
    ensures !HasUuid(users[..|users| - 1], users[|users| - 1].uuid)
  {
  }

  lemma {:induction false} KeysOfList(users: seq<User>, k: Uuid)
    ensures k in ByUuidMap(users) <==> HasUuid(users, k)
  {
    if users != [] {
      var init := users[..|users| - 1];
      KeysOfList(init, k);
      if HasUuid(init, k) {
        var i :| 0 <= i < |init| && init[i].uuid == k;
        assert users[i].uuid == k;
      }
      if i :| 0 <= i < |users| && users[i].uuid == k {
        if i < |init| { assert init[i].uuid == k; }
      }
    }
  }

  lemma {:induction false} InList(users: seq<User>, u: User)
    requires DistinctUuids(users)
    ensures u in users <==> In(ByUuidMap(users), u)
  {
    if users != [] {
      var init, last := users[..|users| - 1], users[|users| - 1];
      InList(init, u);
      KeysOfList(init, last.uuid);
      LastIsNew(users);
      assert users == init + [last];
    }
  }

  /** The loop so far, one user at a time. */
  ghost predicate Sorted(m: map<Uuid, User>, seen: map<Uuid, User>, d: Diff, u: User) {
    && (u in d.added <==> In(seen, u) && !Kept(m, u))
    && (u in d.modified <==> In(seen, u) && Kept(m, u) && NewLimits(m[u.uuid], u))
    && (u in d.deleted <==> In(m, u) && u.uuid in seen && seen[u.uuid].id != u.id)
    && (In(d.left, u) <==> In(m, u) && u.uuid !in seen)
    && (u.uuid in d.left <==> u.uuid in m && u.uuid !in seen)
  }

  lemma MeetKeepsSorted(m: map<Uuid, User>, seen: map<Uuid, User>, d: Diff, v: User, u: User)
    requires forall k | k in m :: m[k].uuid == k
    requires v.uuid !in seen && Sorted(m, seen, d, u) && Sorted(m, seen, d, v)
    requires v.uuid in d.left ==> d.left[v.uuid] == m[v.uuid]
    ensures Sorted(m, seen[v.uuid := v], Meet(d, v), u)
  {
  }

  lemma {:induction false} MeetAllSorted(m: map<Uuid, User>, users: seq<User>, u: User)
    requires DistinctUuids(users) && forall k | k in m :: m[k].uuid == k
    ensures Sorted(m, ByUuidMap(users), MeetAll(Diff([], [], [], m), users), u)
    ensures var left := MeetAll(Diff([], [], [], m), users).left; u.uuid in left ==> left[u.uuid] == m[u.uuid]
    decreases |users|
  {
    if users != [] {
      var init, v := users[..|users| - 1], users[|users| - 1];
      MeetAllSorted(m, init, u);
      MeetAllSorted(m, init, v);
      KeysOfList(init, v.uuid);
      LastIsNew(users);
      MeetKeepsSorted(m, ByUuidMap(init), MeetAll(Diff([], [], [], m), init), v, u);
    }
  }

  /**
   With distinct UUIDs the three lists are exactly: the users of the new list
   whose (UUID, id) the old one lacks, the old users whose (UUID, id) the new one
   lacks, and the users in both whose limits changed.
   */
  lemma CompareIsDifference(old_: seq<User>, new_: seq<User>, rest: seq<User>, u: User)
    requires DistinctUuids(old_) && DistinctUuids(new_) && Lists(rest, Compare(old_, new_).left)
    ensures var d, m, n := Compare(old_, new_), ByUuidMap(old_), ByUuidMap(new_);
      && (u in d.added <==> u in new_ && !Kept(m, u))
      && (u in d.deleted + rest <==> u in old_ && !Kept(n, u))
      && (u in d.modified <==> u in new_ && Kept(m, u) && NewLimits(m[u.uuid], u))
  {
    var d, m := Compare(old_, new_), ByUuidMap(old_);
    InList(old_, u);
    InList(new_, u);
    MeetAllSorted(m, new_, u);
    assert u in rest <==> In(d.left, u) by {
      if In(d.left, u) { assert d.left[u.uuid] in rest; }
    }
  }

  // ---------------------------------------------------------------------------
  // Lists as sets of (id, UUID) pairs

  /** Different users differ in id and in normalised UUID. */
  ghost predicate Distinct(norm: Uuid -> Uuid, users: seq<User>) {
    forall i, j | 0 <= i < |users| && 0 <= j < |users| && (users[i].id == users[j].id || norm(users[i].uuid) == norm(users[j].uuid))
      :: i == j
  }

  datatype Who = Who(id: int, uuid: Uuid)

  function WhoIs(u: User): Who { Who(u.id, u.uuid) }

  function Pairs(users: seq<User>): set<Who> {
    if users == [] then {} else Pairs(users[..|users| - 1]) + {WhoIs(users[|users| - 1])}
  }

  ghost predicate DistinctPairs(norm: Uuid -> Uuid, ws: set<Who>) {
    forall v, w | v in ws && w in ws && (v.id == w.id || norm(v.uuid) == norm(w.uuid)) :: v == w
  }

  lemma {:induction false} InPairs(users: seq<User>, w: Who)
    ensures w in Pairs(users) <==> exists i :: 0 <= i < |users| && WhoIs(users[i]) == w
  {
    if users != [] {
      var init := users[..|users| - 1];
      InPairs(init, w);
      if i :| 0 <= i < |init| && WhoIs(init[i]) == w { assert WhoIs(users[i]) == w; }
      if i :| 0 <= i < |users| && WhoIs(users[i]) == w {
        if i < |init| { assert WhoIs(init[i]) == w; }
      }
    }
  }

  lemma PairsAreDistinct(norm: Uuid -> Uuid, users: seq<User>)
    requires Distinct(norm, users)
    ensures DistinctPairs(norm, Pairs(users)) && DistinctUuids(users)
  {
    forall v, w | v in Pairs(users) && w in Pairs(users) && (v.id == w.id || norm(v.uuid) == norm(w.uuid)) ensures v == w {
      InPairs(users, v);
      InPairs(users, w);
      var i :| 0 <= i < |users| && WhoIs(users[i]) == v;
      var j :| 0 <= j < |users| && WhoIs(users[j]) == w;
    }
  }

  /** As sets of pairs, deleting and adding is a difference and a union. */
  lemma ComparePairs(norm: Uuid -> Uuid, old_: seq<User>, new_: seq<User>, rest: seq<User>)
    requires Distinct(norm, old_) && Distinct(norm, new_) && Lists(rest, Compare(old_, new_).left)
    ensures Pairs(Compare(old_, new_).deleted + rest) == Pairs(old_) - Pairs(new_)
    ensures Pairs(Compare(old_, new_).added) == Pairs(new_) - Pairs(old_)
  {
    PairsAreDistinct(norm, old_);
    PairsAreDistinct(norm, new_);
    var d := Compare(old_, new_);
    forall w ensures w in Pairs(d.deleted + rest) <==> w in Pairs(old_) - Pairs(new_) {
      LostPair(old_, new_, rest, d.deleted + rest, w, false);
    }
    forall w ensures w in Pairs(d.added) <==> w in Pairs(new_) - Pairs(old_) {
      LostPair(old_, new_, rest, d.added, w, true);
    }
  }

  /** One pair: it is in the result list exactly if it is in the one list and not in the other. */
  lemma LostPair(old_: seq<User>, new_: seq<User>, rest: seq<User>, result: seq<User>, w: Who, adding: bool)
    requires DistinctUuids(old_) && DistinctUuids(new_) && Lists(rest, Compare(old_, new_).left)
    requires result == if adding then Compare(old_, new_).added else Compare(old_, new_).deleted + rest
    ensures var from, other := if adding then new_ else old_, if adding then old_ else new_;
      w in Pairs(result) <==> w in Pairs(from) && w !in Pairs(other)
  {
    var from, other := if adding then new_ else old_, if adding then old_ else new_;
    InPairs(result, w);
    InPairs(from, w);
    KeptIsPair(other, w);
    if i :| 0 <= i < |result| && WhoIs(result[i]) == w {
      CompareIsDifference(old_, new_, rest, result[i]);
      assert result[i] in from;
      var j :| 0 <= j < |from| && from[j] == result[i];
      assert WhoIs(from[j]) == w;
    }
    if i :| 0 <= i < |from| && WhoIs(from[i]) == w {
      CompareIsDifference(old_, new_, rest, from[i]);
      if w !in Pairs(other) {
        assert from[i] in result;
        var j :| 0 <= j < |result| && result[j] == from[i];
        assert WhoIs(result[j]) == w;
      }
    }
  }

  lemma KeptIsPair(users: seq<User>, w: Who)
    requires DistinctUuids(users)
    ensures w in Pairs(users) <==> w.uuid in ByUuidMap(users) && ByUuidMap(users)[w.uuid].id == w.id
  {
    InPairs(users, w);
    if i :| 0 <= i < |users| && WhoIs(users[i]) == w {
      InList(users, users[i]);
    }
    if w.uuid in ByUuidMap(users) && ByUuidMap(users)[w.uuid].id == w.id {
      var u := ByUuidMap(users)[w.uuid];
      var i :| 0 <= i < |users| && users[i] == u;
      assert WhoIs(users[i]) == w;
    }
  }
}
