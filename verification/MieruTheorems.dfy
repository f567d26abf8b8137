/** When the Mieru server is up: after every success, after a rollback that works, and again after any trouble. */
module MieruTheorems {
  import opened Common
  import opened Panel
  import opened Mieru

  /** A server runs exactly if there are users, and knows every one of them by its current UUID; so does the policy. */
  ghost predicate Serves(s: State) {
    && (s.server.Some? <==> s.users != map[])
    && (s.server.Some? ==> Cached(s.server.value, s.users))
    && s.accepted == s.users
  }

  function Wanted(s: State, deleted: seq<User>, added: seq<User>): map<int, User> {
    Enter(Remove(s.users, deleted), added)
  }

  /** All of a restart goes well: a running server stops, and one with users starts. */
  predicate Works(running: bool, o: Outcome, users: map<int, User>) {
    o.config && (running ==> o.stop == Stopped) && (users != map[] ==> o.start)
  }

  lemma RestartServesIff(s: State, o: Outcome)
    ensures var (t, e) := Restart(s, o);
      && (e == None <==> Works(s.server.Some?, o, s.users))
      && (e == None ==> (t.server.Some? <==> s.users != map[]))
      && (e == Some(StopTimedOut) <==> o.config && s.server.Some? && o.stop == StopTimesOut)
      && (e != None ==> t.server == if o.config then None else s.server)
      && t.users == s.users
  {
  }

  /** Whether a call takes the way without a restart. */
  predicate Hot(s: State, c: Call) { CanUpdate(s, c.deleted, c.added) && c.hot }

  function Did(s: State, c: Call): (State, Option<Error>) {
    Sync(s, c.deleted, c.added, c.hot, c.update, c.first, c.second)
  }

  /** After a first restart that failed in another way than by a time-out, the second one works. */
  predicate Restored(s: State, c: Call) {
    && !(c.first.config && s.server.Some? && c.first.stop == StopTimesOut)
    && Works(s.server.Some? && !c.first.config, c.second, s.users)
  }

  predicate Changes(c: Call) { c.deleted != [] || c.added != [] }

  /** Exactly when a change succeeds. */
  predicate Succeeds(s: State, c: Call) {
    if Hot(s, c) then c.update || Uncached(s.credentials, c.added) == 0
    else Works(s.server.Some?, c.first, Wanted(s, c.deleted, c.added))
  }

  lemma HotOutcome(s: State, c: Call)
    requires Valid(s) && Changes(c) && Hot(s, c)
    ensures var (t, e) := Did(s, c);
      && (e == None <==> Succeeds(s, c))
      && (t.server.Some? <==> t.users != map[])
      && (e != None ==> t == s && e == Some(UpdateFailed))
  {
  }

  lemma RestartOutcome(s: State, c: Call)
    requires Valid(s) && Changes(c) && !Hot(s, c)
    ensures var (t, e) := Did(s, c);
      && (e == None <==> Succeeds(s, c))
      && (e == None || Restored(s, c) ==> (t.server.Some? <==> t.users != map[]))
      && (e == Some(RestoreFailed) || e == Some(StopTimedOut) <==> !Succeeds(s, c) && !Restored(s, c))
      && (e != None && !Restored(s, c) ==> t.server == if c.first.config || c.second.config then None else s.server)
  {
    var tried := s.(users := Wanted(s, c.deleted, c.added));
    RestartServesIff(tried, c.first);
    var t := Restart(tried, c.first).0;
    RestartServesIff(t.(users := s.users), c.second);
  }

  /**
   A change of users succeeds exactly if what it asks for does. After it, or after
   a failure that was rolled back, the server is up exactly if there are users, and
   serves them; any other failure is reported as one, and leaves no server, except
   that a configuration that fails twice leaves everything alone.
   */
  lemma SyncServes(s: State, c: Call)
    requires Valid(s) && Changes(c)
    ensures var (t, e) := Did(s, c);
      && (e == None <==> Succeeds(s, c))
      && (e == None || Hot(s, c) || Restored(s, c) ==> Serves(t))
      && (e == None ==> t.users == Wanted(s, c.deleted, c.added))
      && (e != None ==> t.users == s.users)
      && (e == Some(RestoreFailed) || e == Some(StopTimedOut) <==> !Succeeds(s, c) && !Hot(s, c) && !Restored(s, c))
      && (e == Some(RestoreFailed) || e == Some(StopTimedOut) ==>
            t.server == if c.first.config || c.second.config then None else s.server)
  {
    SyncKeepsValid(s, c.deleted, c.added, c.hot, c.update, c.first, c.second);
    if Hot(s, c) { HotOutcome(s, c); } else { RestartOutcome(s, c); }
  }

  /** Nothing that a call asks for fails. */
  predicate AllWell(c: Call) {
    c.update && c.first == Outcome(true, Stopped, true)
  }

  /** Whatever failed before: a change of users of which nothing fails makes the server serve exactly the new users. */
  lemma Recovers(calls: seq<Call>, c: Call)
    requires Changes(c) && AllWell(c)
    ensures var s := Run(State(map[], map[], None, map[]), calls);
      && Did(s, c).1 == None && Serves(Did(s, c).0) && Did(s, c).0.users == Wanted(s, c.deleted, c.added)
  {
    ReachableValid(calls);
    SyncServes(Run(State(map[], map[], None, map[]), calls), c);
  }

  /** The places of the list whose ids have no cached credential. */
  function NewPlaces(credentials: Auth, list: seq<User>): set<int> {
    set i | 0 <= i < |list| && list[i].id !in credentials
  }

  lemma {:induction false} UncachedCounts(credentials: Auth, list: seq<User>)
    ensures Uncached(credentials, list) == |NewPlaces(credentials, list)|
  {
    if list == [] {
      assert NewPlaces(credentials, list) == {};
    } else {
      var init, last := list[..|list| - 1], |list| - 1;
      UncachedCounts(credentials, init);
      assert NewPlaces(credentials, list)
          == NewPlaces(credentials, init) + (if list[last].id in credentials then {} else {last});
    }
  }

  /**
   Exactly when a running server is updated in place: it can be, it has users before
   and after, nobody's cached credential changes, and the cache, each new entry counted,
   stays within 1024 more than the users.
   */
  lemma HotIff(s: State, c: Call)
    ensures Hot(s, c)
      <==> c.hot && s.server.Some? && s.users != map[] && Wanted(s, c.deleted, c.added) != map[]
           && (forall u <- c.added :: u.id in s.credentials ==> s.credentials[u.id] == u.uuid)
           && |s.credentials| + |NewPlaces(s.credentials, c.added)| <= |Wanted(s, c.deleted, c.added)| + 1024
  {
    UncachedCounts(s.credentials, c.added);
    if Changed(s.credentials, c.added) {
      var i :| 0 <= i < |c.added| && c.added[i].id in s.credentials && s.credentials[c.added[i].id] != c.added[i].uuid;
      assert c.added[i] in c.added;
    }
  }
}
