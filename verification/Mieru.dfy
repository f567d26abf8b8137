/**
 The Mieru runtime: users are hot-updated where that is safe, otherwise the
 server is restarted, and a failed change is rolled back.
 */
module Mieru {
  import opened Common
  import opened Panel
  import Accounting

  const MAX_TOMBSTONES := 1024

  /** The authentication table of a running server. */
  type Auth = map<int, Uuid>

  datatype State = State(users: map<int, User>, credentials: Auth, server: Option<Auth>, accepted: map<int, User>)

  datatype StopResult = Stopped | StopFails | StopTimesOut

  /** How the steps of one restart turn out, where they are reached. */
  datatype Outcome = Outcome(config: bool, stop: StopResult, start: bool)

  datatype Error = ConfigFailed | StopFailed | StopTimedOut | StartFailed | UpdateFailed | RestoreFailed

  function Remove(users: map<int, User>, list: seq<User>): map<int, User> {
    if list == [] then users else Remove(users, list[..|list| - 1]) - {list[|list| - 1].id}
  }

  function Enter(users: map<int, User>, list: seq<User>): map<int, User> {
    if list == [] then users else Enter(users, list[..|list| - 1])[list[|list| - 1].id := list[|list| - 1]]
  }

  function Cache(credentials: Auth, list: seq<User>): Auth {
    if list == [] then credentials else Cache(credentials, list[..|list| - 1])[list[|list| - 1].id := list[|list| - 1].uuid]
  }

  function Uuids(users: map<int, User>): Auth { map id | id in users :: users[id].uuid }

  /** How many entries of the list are not cached, repetitions counted. */
  function Uncached(credentials: Auth, list: seq<User>): nat {
    if list == [] then 0
    else Uncached(credentials, list[..|list| - 1]) + (if list[|list| - 1].id in credentials then 0 else 1)
  }

  /** credentialChangedLocked. */
  predicate Changed(credentials: Auth, list: seq<User>) {
    exists i :: 0 <= i < |list| && list[i].id in credentials && credentials[list[i].id] != list[i].uuid
  }

  /** restartLocked. */
  function Restart(s: State, o: Outcome): (State, Option<Error>) {
    if !o.config then (s, Some(ConfigFailed))
    else if s.server.Some? && o.stop != Stopped then
      (s.(server := None), Some(if o.stop == StopTimesOut then StopTimedOut else StopFailed))
    else if s.users == map[] then (s.(credentials := map[], server := None), None)
    else if !o.start then (s.(server := None), Some(StartFailed))
    else (s.(credentials := Uuids(s.users), server := Some(Uuids(s.users))), None)
  }

  /** The conditions for changing users under a running server. */
  predicate CanUpdate(s: State, deleted: seq<User>, added: seq<User>) {
    var users := Enter(Remove(s.users, deleted), added);
    && s.server.Some? && s.users != map[] && users != map[] && !Changed(s.credentials, added)
    && |s.credentials| + Uncached(s.credentials, added) <= |users| + MAX_TOMBSTONES
  }

  function Accept(s: State, deleted: seq<User>, added: seq<User>): State {
    s.(accepted := Enter(Remove(s.accepted, deleted), added))
  }

  function HotUpdate(s: State, deleted: seq<User>, added: seq<User>, update: bool): (State, Option<Error>) {
    var credentials := Cache(s.credentials, added);
    var refresh := Uncached(s.credentials, added) > 0;
    if refresh && !update then (s, Some(UpdateFailed))
    else
      (Accept(s.(users := Enter(Remove(s.users, deleted), added), credentials := credentials,
                 server := if refresh then Some(credentials) else s.server), deleted, added), None)
  }

  function Restarting(s: State, deleted: seq<User>, added: seq<User>, first: Outcome, second: Outcome): (State, Option<Error>) {
    var (t, e) := Restart(s.(users := Enter(Remove(s.users, deleted), added)), first);
    if e == None then (Accept(t, deleted, added), None)
    else if e == Some(StopTimedOut) then (t.(users := s.users), e)
    else
      var (r, again) := Restart(t.(users := s.users), second);
      (r, if again == None then e else Some(RestoreFailed))
  }

  /** `hot` says whether the server supports updates, `update` whether one succeeds. */
  function Sync(s: State, deleted: seq<User>, added: seq<User>, hot: bool, update: bool, first: Outcome, second: Outcome)
    : (State, Option<Error>)
  {
    if deleted == [] && added == [] then (s, None)
    else if CanUpdate(s, deleted, added) && hot then HotUpdate(s, deleted, added, update)
    else Restarting(s, deleted, added, first, second)
  }

  // ---------------------------------------------------------------------------
  // The runtime

  class MieruRuntime {
    var users: map<int, User>
    var credentials: Auth
    var server: Option<Auth>
    const services: Accounting.RuntimeServices

    function View(): State
      reads this, services
    {
      State(users, credentials, server, services.users)
    }

    constructor (services: Accounting.RuntimeServices)
      requires services.users == map[]
      ensures this.services == services && View() == State(map[], map[], None, map[])
    {
      users, credentials, server := map[], map[], None;
      this.services := services;
    }

    method CredentialChanged(added: seq<User>) returns (changed: bool)
      ensures changed == Changed(credentials, added)
    {
      for i := 0 to |added|
        invariant forall k | 0 <= k < i :: !(added[k].id in credentials && credentials[added[k].id] != added[k].uuid)
      {
        if added[i].id in credentials && credentials[added[i].id] != added[i].uuid { return true; }
      }
      changed := false;
    }

    method RestartLocked(o: Outcome) returns (err: Option<Error>)
      modifies this`credentials, this`server, services`connections
      ensures (View(), err) == Restart(old(View()), o)
    {
      if !o.config { return Some(ConfigFailed); }
      services.CloseAllConnections();
      var stopped := StopLocked(o.stop);
      if stopped.Some? { return stopped; }
      if users == map[] {
        credentials := map[];
        return None;
      }
      if !o.start { return Some(StartFailed); }
      server := Some(Uuids(users));
      credentials := Uuids(users);
      err := None;
    }

    method StopLocked(stop: StopResult) returns (err: Option<Error>)
      modifies this`server
      ensures server == None
      ensures err == if old(server).None? || stop == Stopped then None
                     else Some(if stop == StopTimesOut then StopTimedOut else StopFailed)
    {
      if server.None? { return None; }
      server := None;
      match stop {
        case Stopped => err := None;
        case StopFails => err := Some(StopFailed);
        case StopTimesOut => err := Some(StopTimedOut);
      }
    }

    method CountUncached(added: seq<User>) returns (projected: nat)
      ensures projected == |credentials| + Uncached(credentials, added)
    {
      projected := |credentials|;
      for i := 0 to |added|
        invariant projected == |credentials| + Uncached(credentials, added[..i])
      {
        assert added[..i + 1][..i] == added[..i];
        if added[i].id !in credentials { projected := projected + 1; }
      }
      assert added[..|added|] == added;
    }

    method ApplyUsers(deleted: seq<User>, added: seq<User>)
      modifies this`users
      ensures users == Enter(Remove(old(users), deleted), added)
    {
      for i := 0 to |deleted|
        invariant users == Remove(old(users), deleted[..i])
      {
        assert deleted[..i + 1][..i] == deleted[..i];
        users := users - {deleted[i].id};
      }
      ghost var left := users;
      for i := 0 to |added|
        invariant users == Enter(left, added[..i])
      {
        assert added[..i + 1][..i] == added[..i];
        users := users[added[i].id := added[i]];
      }
      assert deleted[..|deleted|] == deleted && added[..|added|] == added;
    }

    method CacheCredentials(added: seq<User>) returns (refresh: bool)
      modifies this`credentials
      ensures credentials == Cache(old(credentials), added) && refresh == (Uncached(old(credentials), added) > 0)
    {
      refresh := false;
      for i := 0 to |added|
        invariant credentials == Cache(old(credentials), added[..i])
        invariant refresh == (Uncached(old(credentials), added[..i]) > 0)
        invariant forall k | k in old(credentials) :: k in credentials
        invariant !refresh ==> credentials.Keys == old(credentials).Keys
      {
        assert added[..i + 1][..i] == added[..i];
        if added[i].id !in credentials { refresh := true; }
        credentials := credentials[added[i].id := added[i].uuid];
      }
      assert added[..|added|] == added;
    }

    method SyncUsers(deleted: seq<User>, added: seq<User>, hot: bool, update: bool, first: Outcome, second: Outcome)
      returns (err: Option<Error>)
      modifies this`users, this`credentials, this`server, services
      ensures (View(), err) == Sync(old(View()), deleted, added, hot, update, first, second)
    {
      if |deleted| == 0 && |added| == 0 { return None; }
      var previous := users;
      ApplyUsers(deleted, added);
      var changed := CredentialChanged(added);
      var projected := CountUncached(added);
      if server.Some? && previous != map[] && users != map[] && !changed && projected <= |users| + MAX_TOMBSTONES && hot {
        err := UpdateRunning(deleted, added, update, previous);
      } else {
        err := RestartWith(deleted, added, first, second, previous);
      }
    }

    /** The part of SyncUsers that changes a running server; `users` are the new ones already. */
    method UpdateRunning(deleted: seq<User>, added: seq<User>, update: bool, previous: map<int, User>) returns (err: Option<Error>)
      requires users == Enter(Remove(previous, deleted), added)
      modifies this`users, this`credentials, this`server, services
      ensures (View(), err) == HotUpdate(old(View()).(users := previous), deleted, added, update)
    {
      var cached := credentials;
      var refresh := CacheCredentials(added);
      if refresh && !update {
        users, credentials := previous, cached;
        return Some(UpdateFailed);
      }
      if refresh { server := Some(credentials); }
      SyncServices(deleted, added);
      err := None;
    }

    /** The part of SyncUsers that restarts, with its rollback. */
    method RestartWith(deleted: seq<User>, added: seq<User>, first: Outcome, second: Outcome, previous: map<int, User>)
      returns (err: Option<Error>)
      requires users == Enter(Remove(previous, deleted), added)
      modifies this`users, this`credentials, this`server, services
      ensures (View(), err) == Restarting(old(View()).(users := previous), deleted, added, first, second)
    {
      err := RestartLocked(first);
      if err.Some? {
        users := previous;
        if err == Some(StopTimedOut) { return; }
        var again := RestartLocked(second);
        if again.Some? { err := Some(RestoreFailed); }
        return;
      }
      SyncServices(deleted, added);
    }

    method SyncServices(deleted: seq<User>, added: seq<User>)
      modifies services
      ensures services.users == Enter(Remove(old(services.users), deleted), added)
    {
      ServicesFollow(services.norm, services.View(), deleted, added);
      var closing := services.SyncUsers(deleted, added);
    }
  }

  /** The runtime services replace users the way the runtime does. */
  lemma ServicesFollow(norm: Uuid -> Uuid, s: Accounting.State, deleted: seq<User>, added: seq<User>)
    ensures Accounting.AddUsers(norm, Accounting.DeleteUsers(norm, s, deleted), added).users
         == Enter(Remove(s.users, deleted), added)
  {
    DeletesFollow(norm, s, deleted);
    AddsFollow(norm, Accounting.DeleteUsers(norm, s, deleted), added);
  }

  lemma {:induction false} DeletesFollow(norm: Uuid -> Uuid, s: Accounting.State, list: seq<User>)
    ensures Accounting.DeleteUsers(norm, s, list).users == Remove(s.users, list)
  {
    if list != [] { DeletesFollow(norm, s, list[..|list| - 1]); }
  }

  lemma {:induction false} AddsFollow(norm: Uuid -> Uuid, s: Accounting.State, list: seq<User>)
    ensures Accounting.AddUsers(norm, s, list).users == Enter(s.users, list)
  {
    if list != [] { AddsFollow(norm, s, list[..|list| - 1]); }
  }

  // ---------------------------------------------------------------------------
  // The invariant

  /**
   Every active user's cached credential is its UUID, the cache holds a bounded
   number of others, a running server authenticates exactly the cache, and the
   connection policy accepts exactly the active users.
   */
  ghost predicate Valid(s: State) {
    && (forall id | id in s.users :: id in s.credentials && s.credentials[id] == s.users[id].uuid)
    && |s.credentials| <= |s.users| + MAX_TOMBSTONES
    && (s.server.Some? ==> s.server.value == s.credentials)
    && s.accepted == s.users
  }

  /** What a rollback may find: all of Valid but for the users being tried. */
  ghost predicate Backed(s: State, users: map<int, User>) {
    Valid(s.(users := users))
  }

  lemma RestartIsValid(s: State, users: map<int, User>, o: Outcome)
    requires Backed(s, users)
    ensures var (t, e) := Restart(s, o);
      (e.Some? ==> Backed(t, users)) && (e.None? ==> Valid(t.(accepted := t.users)))
  {
    assert Uuids(s.users).Keys == s.users.Keys;
  }

  /** Every user of the new list finds its UUID in the cache. */
  ghost predicate Cached(all: Auth, users: map<int, User>) {
    forall id | id in users :: id in all && all[id] == users[id].uuid
  }

  lemma {:induction false} CacheServes(credentials: Auth, users: map<int, User>, deleted: seq<User>, added: seq<User>)
    requires Cached(credentials, users)
    ensures Cached(Cache(credentials, added), Enter(Remove(users, deleted), added))
    decreases |added|
  {
    if added == [] {
      RemoveKeeps(users, deleted);
    } else {
      CacheServes(credentials, users, deleted, added[..|added| - 1]);
    }
  }

  lemma {:induction false} CacheSize(credentials: Auth, added: seq<User>)
    ensures |Cache(credentials, added)| <= |credentials| + Uncached(credentials, added)
    decreases |added|
  {
    if added != [] {
      CacheSize(credentials, added[..|added| - 1]);
      CacheGrows(credentials, added[..|added| - 1], added[|added| - 1]);
    }
  }

  lemma {:induction false} CacheUntouched(credentials: Auth, added: seq<User>)
    requires Uncached(credentials, added) == 0 && !Changed(credentials, added)
    ensures Cache(credentials, added) == credentials
    decreases |added|
  {
    if added != [] {
      var init := added[..|added| - 1];
      forall i | 0 <= i < |init| && init[i].id in credentials ensures credentials[init[i].id] == init[i].uuid {
        assert added[i] == init[i];
      }
      CacheUntouched(credentials, init);
    }
  }

  lemma CacheGrows(credentials: Auth, init: seq<User>, u: User)
    requires |Cache(credentials, init)| <= |credentials| + Uncached(credentials, init)
    ensures |Cache(credentials, init)[u.id := u.uuid]| <= |credentials| + Uncached(credentials, init) + (if u.id in credentials then 0 else 1)
  {
    CacheKeeps(credentials, init);
  }

  lemma {:induction false} CacheKeeps(credentials: Auth, list: seq<User>)
    ensures forall id | id in credentials :: id in Cache(credentials, list)
  {
    if list != [] { CacheKeeps(credentials, list[..|list| - 1]); }
  }

  lemma {:induction false} RemoveKeeps(users: map<int, User>, list: seq<User>)
    ensures forall id | id in Remove(users, list) :: id in users && Remove(users, list)[id] == users[id]
  {
    if list != [] { RemoveKeeps(users, list[..|list| - 1]); }
  }

  lemma HotUpdateIsValid(s: State, deleted: seq<User>, added: seq<User>, update: bool)
    requires Valid(s) && CanUpdate(s, deleted, added)
    ensures Valid(HotUpdate(s, deleted, added, update).0)
  {
    CacheServes(s.credentials, s.users, deleted, added);
    CacheSize(s.credentials, added);
    if Uncached(s.credentials, added) == 0 && !Changed(s.credentials, added) { CacheUntouched(s.credentials, added); }
  }

  lemma RestartingIsValid(s: State, deleted: seq<User>, added: seq<User>, first: Outcome, second: Outcome)
    requires Valid(s)
    ensures var (t, e) := Restarting(s, deleted, added, first, second);
      Valid(t) && (e.Some? ==> t.users == s.users)
  {
    var tried := s.(users := Enter(Remove(s.users, deleted), added));
    assert tried.(users := s.users) == s;
    RestartIsValid(tried, s.users, first);
    var (t, e) := Restart(tried, first);
    if e.Some? { RestoreIsValid(t, s.users, second); }
  }

  lemma RestoreIsValid(t: State, users: map<int, User>, second: Outcome)
    requires Backed(t, users)
    ensures Valid(t.(users := users))
    ensures var (r, again) := Restart(t.(users := users), second); Valid(r) && r.users == users
  {
    var back := t.(users := users);
    assert back.(users := users) == back;
    RestartIsValid(back, users, second);
    var r := Restart(back, second).0;
    assert r.(users := users) == r && r.(accepted := users) == r;
  }

  /** Whatever fails and is rolled back, every SyncUsers leaves the cache right; a failed one leaves the users as they were. */
  lemma SyncKeepsValid(s: State, deleted: seq<User>, added: seq<User>, hot: bool, update: bool, first: Outcome, second: Outcome)
    requires Valid(s)
    ensures var (t, e) := Sync(s, deleted, added, hot, update, first, second);
      && Valid(t)
      && (e.Some? ==> t.users == s.users)
      && (e.None? ==> t.users == Enter(Remove(s.users, deleted), added))
  {
    if deleted == [] && added == [] {
    } else if CanUpdate(s, deleted, added) && hot {
      HotUpdateIsValid(s, deleted, added, update);
    } else {
      RestartingIsValid(s, deleted, added, first, second);
    }
  }

  /** One call with the outcomes of everything it may ask for. */
  datatype Call = Call(deleted: seq<User>, added: seq<User>, hot: bool, update: bool, first: Outcome, second: Outcome)

  function Run(s: State, calls: seq<Call>): State {
    if calls == [] then s
    else
      var c := calls[|calls| - 1];
      Sync(Run(s, calls[..|calls| - 1]), c.deleted, c.added, c.hot, c.update, c.first, c.second).0
  }

  lemma {:induction false} ReachableValid(calls: seq<Call>)
    ensures Valid(Run(State(map[], map[], None, map[]), calls))
  {
    if calls != [] {
      var c := calls[|calls| - 1];
      ReachableValid(calls[..|calls| - 1]);
      SyncKeepsValid(Run(State(map[], map[], None, map[]), calls[..|calls| - 1]), c.deleted, c.added, c.hot, c.update, c.first, c.second);
    }
  }

  /** A changed credential always takes the restart path, and success leaves no old or deleted credential behind. */
  lemma ChangeNeedsRestart(s: State, deleted: seq<User>, added: seq<User>, hot: bool, update: bool, first: Outcome, second: Outcome, i: nat)
    requires Valid(s) && i < |added| && added[i].id in s.credentials && s.credentials[added[i].id] != added[i].uuid
    ensures Sync(s, deleted, added, hot, update, first, second) == Restarting(s, deleted, added, first, second)
    ensures var (t, e) := Sync(s, deleted, added, hot, update, first, second);
      e.None? ==> t.credentials == Uuids(t.users) && (t.server.Some? ==> t.server.value == Uuids(t.users))
  {
    assert Changed(s.credentials, added) && added != [];
    assert Uuids(map[]) == map[];
  }
}
