/** The replay set of handshake nonces: expiry, pruning, and eviction when it is full. */
module NonceSet {
  import opened Common

  datatype Nonce = Nonce(bytes: Bytes)

  const DEFAULT_ENTRIES := 4096
  const DEFAULT_TTL := 60000000000

  /** Expiry times in nanoseconds; no prune has happened while lastPrune is None. */
  datatype State = State(m: map<Nonce, int>, maxEntries: nat, lastPrune: Option<int>)

  function Ttl(ttl: int): int { if ttl <= 0 then DEFAULT_TTL else ttl }

  predicate Prunes(s: State, now: int, ttl: int) {
    s.lastPrune.None? || now - s.lastPrune.value > Ttl(ttl) / 2 || |s.m| > s.maxEntries
  }

  function Unexpired(m: map<Nonce, int>, now: int): map<Nonce, int> {
    map k | k in m && now < m[k] :: m[k]
  }

  /** One call; `evicted` are the nonces that pruning threw out although they had not expired. */
  datatype Call = Call(nonce: Nonce, now: int, ttl: int, evicted: set<Nonce>)

  /** Eviction takes any nonces, but only as many as are too many after expired ones are gone. */
  ghost predicate Legal(s: State, c: Call) {
    if Prunes(s, c.now, c.ttl) then
      var left := Unexpired(s.m, c.now);
      c.evicted <= left.Keys && |c.evicted| == if |left| > s.maxEntries then |left| - s.maxEntries else 0
    else c.evicted == {}
  }

  function Pruned(s: State, c: Call): State {
    if Prunes(s, c.now, c.ttl) then State(Unexpired(s.m, c.now) - c.evicted, s.maxEntries, Some(c.now)) else s
  }

  function Present(s: State, c: Call): (State, bool) {
    var t := Pruned(s, c);
    if c.nonce in t.m && c.now < t.m[c.nonce] then (t, false) else (t.(m := t.m[c.nonce := c.now + Ttl(c.ttl)]), true)
  }

  class NonceTable {
    var m: map<Nonce, int>
    var maxEntries: nat
    var lastPrune: Option<int>

    function View(): State
      reads this
    {
      State(m, maxEntries, lastPrune)
    }

    constructor (maxEntries: int)
      ensures View() == State(map[], if maxEntries <= 0 then DEFAULT_ENTRIES else maxEntries, None)
    {
      m, lastPrune := map[], None;
      this.maxEntries := if maxEntries <= 0 then DEFAULT_ENTRIES else maxEntries;
    }

    method Allow(nonce: Nonce, now: int, ttl0: int) returns (ok: bool, ghost evicted: set<Nonce>)
      modifies this`m, this`lastPrune
      ensures var c := Call(nonce, now, ttl0, evicted);
        Legal(old(View()), c) && (View(), ok) == Present(old(View()), c)
    {
      var ttl := if ttl0 <= 0 then DEFAULT_TTL else ttl0;
      evicted := {};
      if lastPrune.None? || now - lastPrune.value > ttl / 2 || |m| > maxEntries {
        DropExpired(now);
        lastPrune := Some(now);
        evicted := Evict();
      }
      ghost var c := Call(nonce, now, ttl0, evicted);
      assert View() == Pruned(old(View()), c);
      if nonce in m && now < m[nonce] { return false, evicted; }
      m := m[nonce := now + ttl];
      ok := true;
    }

    method DropExpired(now: int)
      modifies this`m
      ensures m == Unexpired(old(m), now)
    {
      var todo := m.Keys;
      while todo != {}
        invariant forall k :: k in m <==> k in old(m) && (k in todo || now < old(m)[k])
        invariant forall k | k in m :: m[k] == old(m)[k]
        decreases |todo|
      {
        var k :| k in todo;
        todo := todo - {k};
        if k in m && now >= m[k] { m := m - {k}; }
      }
    }

    /** Any entry may go, as long as there are too many. */
    method Evict() returns (ghost evicted: set<Nonce>)
      modifies this`m
      ensures evicted <= old(m).Keys && m == old(m) - evicted
      ensures |evicted| == if |old(m)| > maxEntries then |old(m)| - maxEntries else 0
    {
      evicted := {};
      while |m| > maxEntries
        invariant evicted <= old(m).Keys && m == old(m) - evicted && |m| + |evicted| == |old(m)|
        invariant |m| >= maxEntries || evicted == {}
        decreases |m|
      {
        NotEmpty(m);
        var k :| k in m;
        Shrinks(m, k);
        m := m - {k};
        evicted := evicted + {k};
      }
    }
  }

  lemma NotEmpty(m: map<Nonce, int>)
    requires |m| > 0
    ensures exists k :: k in m
  {
    assert m.Keys != {};
  }

  lemma Shrinks(m: map<Nonce, int>, k: Nonce)
    requires k in m
    ensures |m - {k}| == |m| - 1
  {
    assert (m - {k}).Keys == m.Keys - {k};
  }

  // ---------------------------------------------------------------------------
  // Runs

  function After(s: State, calls: seq<Call>): State {
    if calls == [] then s else Present(After(s, calls[..|calls| - 1]), calls[|calls| - 1]).0
  }

  ghost predicate LegalRun(s: State, calls: seq<Call>) {
    forall k | 0 <= k < |calls| :: LegalAt(s, calls, k)
  }

  ghost predicate LegalAt(s: State, calls: seq<Call>, k: nat)
    requires k < |calls|
  {
    Legal(After(s, calls[..k]), calls[k])
  }

  /** Whether call number k was let through. */
  predicate Allowed(s: State, calls: seq<Call>, k: nat)
    requires k < |calls|
  {
    Present(After(s, calls[..k]), calls[k]).1
  }

  predicate NonDecreasing(calls: seq<Call>) {
    forall i, j | 0 <= i < j < |calls| :: calls[i].now <= calls[j].now
  }

  lemma NotLater(calls: seq<Call>, i: nat, j: nat)
    requires NonDecreasing(calls) && i <= j < |calls|
    ensures calls[i].now <= calls[j].now
  {
  }

  function Empty(maxEntries: nat): State { State(map[], maxEntries, None) }

  lemma AfterStep(s: State, calls: seq<Call>, k: nat)
    requires k < |calls|
    ensures After(s, calls[..k + 1]) == Present(After(s, calls[..k]), calls[k]).0
  {
    assert calls[..k + 1][..k] == calls[..k];
  }

  lemma PrunedSize(s: State, c: Call)
    requires Legal(s, c) && s.maxEntries > 0
    ensures |Pruned(s, c).m| <= s.maxEntries && Pruned(s, c).maxEntries == s.maxEntries
  {
    if Prunes(s, c.now, c.ttl) {
      var left := Unexpired(s.m, c.now);
      assert (left - c.evicted).Keys == left.Keys - c.evicted;
    }
  }

  /** Whether a call is legal depends on the calls up to it. */
  lemma SameBeginning(s: State, calls: seq<Call>, other: seq<Call>, k: nat)
    requires k < |calls| && k < |other| && other[..k + 1] == calls[..k + 1]
    ensures LegalAt(s, calls, k) <==> LegalAt(s, other, k)
  {
    assert calls[..k] == calls[..k + 1][..k] && other[..k] == other[..k + 1][..k];
    assert calls[k] == calls[..k + 1][k] && other[k] == other[..k + 1][k];
  }

  lemma LegalPrefix(s: State, calls: seq<Call>, k: nat)
    requires LegalRun(s, calls) && k <= |calls|
    ensures LegalRun(s, calls[..k])
  {
    forall h | 0 <= h < k ensures LegalAt(s, calls[..k], h) {
      assert LegalAt(s, calls, h);
      assert calls[..k][..h + 1] == calls[..h + 1];
      SameBeginning(s, calls, calls[..k], h);
    }
  }

  /** The set never holds more than one nonce above its size, whatever the clock does. */
  lemma {:induction false} SizeIsBounded(maxEntries: nat, calls: seq<Call>)
    requires maxEntries > 0 && LegalRun(Empty(maxEntries), calls)
    ensures var t := After(Empty(maxEntries), calls); |t.m| <= maxEntries + 1 && t.maxEntries == maxEntries
  {
    if calls != [] {
      var n := |calls| - 1;
      LegalPrefix(Empty(maxEntries), calls, n);
      SizeIsBounded(maxEntries, calls[..n]);
      assert LegalAt(Empty(maxEntries), calls, n);
      PrunedSize(After(Empty(maxEntries), calls[..n]), calls[n]);
    }
  }

  /** The nonce is in the set and expires then. */
  predicate Knows(s: State, nonce: Nonce, expiry: int) {
    nonce in s.m && s.m[nonce] == expiry
  }

  function Expiry(c: Call): int { c.now + Ttl(c.ttl) }

  /** From call i up to call j the clock has not passed its expiry and no prune threw it out. */
  predicate Kept(calls: seq<Call>, nonce: Nonce, expiry: int, i: nat, j: nat)
    requires j <= |calls|
  {
    forall k | i < k < j :: calls[k].now < expiry && nonce !in calls[k].evicted
  }

  lemma KeptThere(calls: seq<Call>, nonce: Nonce, expiry: int, i: nat, k: nat)
    requires i < k < |calls| && Kept(calls, nonce, expiry, i, k + 1)
    ensures Kept(calls, nonce, expiry, i, k) && calls[k].now < expiry && nonce !in calls[k].evicted
  {
  }

  /** A nonce let through stays known until it expires, unless it is evicted. */
  lemma {:induction false} StaysKnown(s: State, calls: seq<Call>, i: nat, j: nat)
    requires i < j <= |calls| && Allowed(s, calls, i) && Kept(calls, calls[i].nonce, Expiry(calls[i]), i, j)
    ensures Knows(After(s, calls[..j]), calls[i].nonce, Expiry(calls[i]))
    decreases j
  {
    var k := j - 1;
    AfterStep(s, calls, k);
    if k > i {
      KeptThere(calls, calls[i].nonce, Expiry(calls[i]), i, k);
      StaysKnown(s, calls, i, k);
      KnownStays(After(s, calls[..k]), calls[k], calls[i].nonce, Expiry(calls[i]));
    } else {
      AllowedIsKnown(After(s, calls[..i]), calls[i]);
    }
  }

  lemma AllowedIsKnown(s: State, c: Call)
    requires Present(s, c).1
    ensures Knows(Present(s, c).0, c.nonce, Expiry(c))
  {
  }

  lemma KnownStays(s: State, c: Call, nonce: Nonce, expiry: int)
    requires Knows(s, nonce, expiry) && c.now < expiry && nonce !in c.evicted
    ensures Knows(Present(s, c).0, nonce, expiry)
  {
    assert nonce in Pruned(s, c).m;
  }

  lemma UnknownStays(s: State, c: Call, nonce: Nonce)
    requires nonce !in s.m
    ensures nonce !in Pruned(s, c).m && (c.nonce != nonce ==> nonce !in Present(s, c).0.m)
  {
  }

  lemma EvictionForgets(s: State, c: Call, nonce: Nonce)
    requires Legal(s, c) && nonce in c.evicted
    ensures nonce !in Pruned(s, c).m && (c.nonce != nonce ==> nonce !in Present(s, c).0.m)
  {
  }

  predicate Unseen(calls: seq<Call>, nonce: Nonce, i: nat, j: nat)
    requires j <= |calls|
  {
    forall k | i <= k < j :: calls[k].nonce != nonce
  }

  /** Evicted and not seen since, a nonce is unknown. */
  lemma {:induction false} StaysUnknown(s: State, calls: seq<Call>, nonce: Nonce, i: nat, k: nat)
    requires i <= k < |calls| && LegalRun(s, calls) && nonce in calls[i].evicted && Unseen(calls, nonce, i, k + 1)
    ensures nonce !in After(s, calls[..k + 1]).m
    decreases k
  {
    AfterStep(s, calls, k);
    if k > i {
      StaysUnknown(s, calls, nonce, i, k - 1);
    } else {
      assert LegalAt(s, calls, k);
    }
    UnknownAfter(After(s, calls[..k]), calls[k], nonce);
  }

  lemma UnknownAfter(s: State, c: Call, nonce: Nonce)
    requires c.nonce != nonce && (nonce !in s.m || (Legal(s, c) && nonce in c.evicted))
    ensures nonce !in Present(s, c).0.m
  {
    if nonce in s.m { EvictionForgets(s, c, nonce); } else { UnknownStays(s, c, nonce); }
  }

  /** How long a nonce is remembered: as long as asked for, or a minute. */
  function Lifetime(ttl: int): int { if ttl > 0 then ttl else 60 * 1000 * 1000 * 1000 }

  lemma {:induction false} KeepsExpiry(s: State, calls: seq<Call>, i: nat, j: nat)
    requires i < j <= |calls| && Allowed(s, calls, i) && Unseen(calls, calls[i].nonce, i + 1, j)
    ensures var m := After(s, calls[..j]).m; calls[i].nonce in m ==> m[calls[i].nonce] == Expiry(calls[i])
    decreases j
  {
    var k := j - 1;
    AfterStep(s, calls, k);
    if k > i { KeepsExpiry(s, calls, i, k); } else { AllowedIsKnown(After(s, calls[..i]), calls[i]); }
  }

  /** From the end of its lifetime on, a nonce is let through again. */
  lemma ExpiredIsFresh(s: State, calls: seq<Call>, i: nat, j: nat)
    requires i < j < |calls| && Allowed(s, calls, i) && Unseen(calls, calls[i].nonce, i + 1, j)
    requires calls[j].nonce == calls[i].nonce && calls[j].now >= calls[i].now + Lifetime(calls[i].ttl)
    ensures Allowed(s, calls, j)
  {
    KeepsExpiry(s, calls, i, j);
  }

  /**
   The set is cleaned by exactly the calls that come first, or more than half a
   lifetime after the last cleaning, or find too many nonces: then no other expired
   nonce is left, and otherwise none is lost.
   */
  lemma CleansWhenDue(s: State, c: Call)
    requires Legal(s, c)
    ensures var t := Present(s, c).0;
      if s.lastPrune.None? || c.now - s.lastPrune.value > Lifetime(c.ttl) / 2 || |s.m| > s.maxEntries then
        t.lastPrune == Some(c.now) && forall k | k in t.m && k != c.nonce :: k in s.m && c.now < t.m[k] == s.m[k]
      else
        t.lastPrune == s.lastPrune && forall k | k in s.m :: k in t.m && (k != c.nonce ==> t.m[k] == s.m[k])
  {
  }

  /**
   Replay protection, exactly: the next presentation of a nonce within its TTL is
   let through if and only if the nonce was evicted since.
   */
  lemma ReplayIffEvicted(s: State, calls: seq<Call>, i: nat, j: nat)
    requires LegalRun(s, calls) && NonDecreasing(calls) && i < j < |calls|
    requires Allowed(s, calls, i) && calls[j].nonce == calls[i].nonce && calls[j].now < calls[i].now + Lifetime(calls[i].ttl)
    requires forall k | i < k < j :: calls[k].nonce != calls[i].nonce
    ensures Allowed(s, calls, j) <==> exists k :: i < k <= j && calls[i].nonce in calls[k].evicted
  {
    var nonce := calls[i].nonce;
    if k :| i < k <= j && nonce in calls[k].evicted {
      EvictedIsAllowed(s, calls, k, j);
    } else {
      assert Kept(calls, nonce, Expiry(calls[i]), i, j) by {
        forall k | i < k < j ensures calls[k].now < Expiry(calls[i]) && nonce !in calls[k].evicted {
          assert calls[k].now <= calls[j].now;
        }
      }
      StaysKnown(s, calls, i, j);
      KnownIsRejected(After(s, calls[..j]), calls[j]);
    }
  }

  lemma EvictedIsAllowed(s: State, calls: seq<Call>, k: nat, j: nat)
    requires LegalRun(s, calls) && k <= j < |calls| && calls[j].nonce in calls[k].evicted
    requires forall h | k <= h < j :: calls[h].nonce != calls[j].nonce
    ensures Allowed(s, calls, j)
  {
    var t, c := After(s, calls[..j]), calls[j];
    if k < j {
      StaysUnknown(s, calls, c.nonce, k, j - 1);
      UnknownStays(t, c, c.nonce);
    } else {
      assert LegalAt(s, calls, j);
      EvictionForgets(t, c, c.nonce);
    }
  }

  lemma KnownIsRejected(s: State, c: Call)
    requires c.nonce in s.m && c.now < s.m[c.nonce] && c.nonce !in c.evicted
    ensures !Present(s, c).1
  {
  }

  // ---------------------------------------------------------------------------
  // Without looking at what eviction picked

  /** At this call the set prunes and finds more unexpired nonces than it may hold. */
  predicate Excess(s: State, c: Call) {
    Prunes(s, c.now, c.ttl) && |Unexpired(s.m, c.now)| > s.maxEntries
  }

  predicate ExcessAt(s: State, calls: seq<Call>, k: nat)
    requires k < |calls|
  {
    Excess(After(s, calls[..k]), calls[k])
  }

  /** The same nonce, time and TTL, whatever eviction picks. */
  predicate SameRequest(c: Call, d: Call) { c.nonce == d.nonce && c.now == d.now && c.ttl == d.ttl }

  /** Another course the same requests may take from call number i + 1 on. */
  ghost predicate Alternative(s: State, calls: seq<Call>, other: seq<Call>, i: nat)
    requires i < |calls|
  {
    |other| == |calls| && LegalRun(s, other) && other[..i + 1] == calls[..i + 1] && Asks(calls, other)
  }

  /** The first requests are the same. */
  ghost predicate Asks(calls: seq<Call>, part: seq<Call>) {
    |part| <= |calls| && forall k | 0 <= k < |part| :: SameRequest(calls[k], part[k])
  }

  lemma NoExcessNoEviction(s: State, c: Call)
    requires Legal(s, c) && !Excess(s, c)
    ensures c.evicted == {}
  {
  }

  /** A set has subsets of every size up to its own, with any one element in them. */
  lemma {:induction false} SubsetWith(all: set<Nonce>, n: nat, x: Nonce) returns (part: set<Nonce>)
    requires x in all && 0 < n <= |all|
    ensures part <= all && |part| == n && x in part
    decreases n
  {
    if n == 1 {
      part := {x};
    } else {
      var rest := all - {x};
      assert |rest| == |all| - 1 && rest != {};
      var y :| y in rest;
      var some := SubsetWith(rest, n - 1, y);
      part := some + {x};
    }
  }

  /** Whatever is asked, eviction has a legal choice; with an excess, one that takes a given nonce. */
  lemma LegalChoice(s: State, c: Call, x: Option<Nonce>) returns (d: Call)
    requires x.Some? ==> Excess(s, c) && x.value in Unexpired(s.m, c.now)
    ensures SameRequest(c, d) && Legal(s, d) && (x.Some? ==> x.value in d.evicted)
  {
    var left := Unexpired(s.m, c.now);
    if Excess(s, c) {
      var y: Nonce;
      if x.Some? {
        y := x.value;
      } else {
        NotEmpty(left);
        y :| y in left;
      }
      assert |left.Keys| == |left|;
      var part := SubsetWith(left.Keys, |left| - s.maxEntries, y);
      d := c.(evicted := part);
    } else {
      d := c.(evicted := {});
    }
  }

  lemma LegalSnoc(s: State, calls: seq<Call>, d: Call)
    requires LegalRun(s, calls) && Legal(After(s, calls), d)
    ensures LegalRun(s, calls + [d])
  {
    var all := calls + [d];
    forall k | 0 <= k < |all| ensures LegalAt(s, all, k) {
      if k < |calls| {
        assert LegalAt(s, calls, k);
        SameBeginning(s, calls, all, k);
      } else {
        assert all[..k] == calls;
      }
    }
  }

  /** A legal beginning can be continued legally with any requests. */
  lemma {:induction false} LegalTail(s: State, calls: seq<Call>, done: seq<Call>) returns (all: seq<Call>)
    requires LegalRun(s, done) && Asks(calls, done)
    ensures LegalRun(s, all) && |all| == |calls| && Asks(calls, all) && done <= all
    decreases |calls| - |done|
  {
    if |done| == |calls| {
      all := done;
    } else {
      var d := LegalChoice(After(s, done), calls[|done|], None);
      LegalSnoc(s, done, d);
      all := LegalTail(s, calls, done + [d]);
      assert done <= done + [d];
    }
  }

  /** The situation of a replay: a nonce let through at i, shown next at j, still within its lifetime. */
  ghost predicate Replay(s: State, calls: seq<Call>, i: nat, j: nat) {
    && NonDecreasing(calls) && i < j < |calls|
    && Allowed(s, calls, i) && calls[j].nonce == calls[i].nonce && calls[j].now < calls[i].now + Ttl(calls[i].ttl)
    && forall k | i < k < j :: calls[k].nonce != calls[i].nonce
  }

  /** While nothing is evicted the course of the requests is determined. */
  lemma {:induction false} SameCourse(s: State, calls: seq<Call>, other: seq<Call>, i: nat, k: nat)
    requires i < k <= |calls| && LegalRun(s, calls) && Alternative(s, calls, other, i)
    requires forall h | i < h < k :: !ExcessAt(s, calls, h)
    ensures other[..k] == calls[..k]
    decreases k
  {
    if k > i + 1 {
      SameCourse(s, calls, other, i, k - 1);
      assert !ExcessAt(s, calls, k - 1);
      SameNext(s, calls, other, k - 1);
    }
  }

  lemma SameNext(s: State, calls: seq<Call>, other: seq<Call>, k: nat)
    requires k < |calls| && LegalRun(s, calls) && LegalRun(s, other) && Asks(calls, other) && k < |other|
    requires other[..k] == calls[..k] && !ExcessAt(s, calls, k)
    ensures other[..k + 1] == calls[..k + 1]
  {
    NoneEvicted(s, calls, k);
    NoneEvicted(s, other, k);
    SameCall(calls[k], other[k]);
    TakeNext(calls, other, k);
  }

  lemma SameCall(c: Call, d: Call)
    requires SameRequest(c, d) && c.evicted == d.evicted
    ensures c == d
  {
  }

  lemma TakeNext<T>(a: seq<T>, b: seq<T>, k: nat)
    requires k < |a| && k < |b| && b[..k] == a[..k] && a[k] == b[k]
    ensures b[..k + 1] == a[..k + 1]
  {
    assert b[..k + 1] == b[..k] + [b[k]];
    assert a[..k + 1] == a[..k] + [a[k]];
  }

  /** No excess since: the replay is refused, and any other one before it would be. */
  lemma RefusedWithoutExcess(s: State, calls: seq<Call>, i: nat, j: nat)
    requires LegalRun(s, calls) && Replay(s, calls, i, j)
    requires forall k | i < k <= j :: !ExcessAt(s, calls, k)
    ensures !Allowed(s, calls, j)
  {
    forall k | i < k <= j ensures calls[k].evicted == {} {
      assert !ExcessAt(s, calls, k);
      NoneEvicted(s, calls, k);
    }
    ReplayIffEvicted(s, calls, i, j);
  }

  /** An excess since: eviction may pick the nonce, and then the replay is let through. */
  lemma ExcessLetsThrough(s: State, calls: seq<Call>, i: nat, j: nat, k: nat) returns (other: seq<Call>)
    requires LegalRun(s, calls) && Replay(s, calls, i, j) && i < k <= j && ExcessAt(s, calls, k)
    requires forall h | i < h < k :: !ExcessAt(s, calls, h)
    ensures Alternative(s, calls, other, i) && Allowed(s, other, j)
  {
    StillKnown(s, calls, i, j, k);
    var d := LegalChoice(After(s, calls[..k]), calls[k], Some(calls[i].nonce));
    LegalPrefix(s, calls, k);
    LegalSnoc(s, calls[..k], d);
    assert Asks(calls, calls[..k] + [d]);
    other := LegalTail(s, calls, calls[..k] + [d]);
    OtherIsAlternative(s, calls, other, i, k, d);
    forall h | k <= h < j ensures other[h].nonce != other[j].nonce { assert SameRequest(calls[h], other[h]) && SameRequest(calls[j], other[j]); }
    assert SameRequest(calls[j], other[j]);
    EvictedIsAllowed(s, other, k, j);
  }

  /** At the first excess the nonce is among those that may be evicted. */
  lemma StillKnown(s: State, calls: seq<Call>, i: nat, j: nat, k: nat)
    requires LegalRun(s, calls) && Replay(s, calls, i, j) && i < k <= j
    requires forall h | i < h < k :: !ExcessAt(s, calls, h)
    ensures calls[i].nonce in Unexpired(After(s, calls[..k]).m, calls[k].now)
  {
    var expiry := Expiry(calls[i]);
    assert Kept(calls, calls[i].nonce, expiry, i, k) by {
      forall h | i < h < k ensures calls[h].now < expiry && calls[i].nonce !in calls[h].evicted {
        NotLater(calls, h, j);
        NoneEvicted(s, calls, h);
      }
    }
    StaysKnown(s, calls, i, k);
    NotLater(calls, k, j);
    KnownIsUnexpired(After(s, calls[..k]), calls[k], calls[i].nonce, expiry);
  }

  lemma KnownIsUnexpired(s: State, c: Call, nonce: Nonce, expiry: int)
    requires Knows(s, nonce, expiry) && c.now < expiry
    ensures nonce in Unexpired(s.m, c.now)
  {
  }

  lemma NoneEvicted(s: State, calls: seq<Call>, h: nat)
    requires LegalRun(s, calls) && h < |calls| && !ExcessAt(s, calls, h)
    ensures calls[h].evicted == {}
  {
    assert LegalAt(s, calls, h);
    NoExcessNoEviction(After(s, calls[..h]), calls[h]);
  }

  lemma OtherIsAlternative(s: State, calls: seq<Call>, other: seq<Call>, i: nat, k: nat, d: Call)
    requires i < k < |calls| && |other| == |calls| && LegalRun(s, other) && Asks(calls, other)
    requires calls[..k] + [d] <= other
    ensures Alternative(s, calls, other, i) && other[k] == d
  {
    var done := calls[..k] + [d];
    assert other[..i + 1] == done[..i + 1] == calls[..i + 1] && done[k] == d;
  }

  /** What the requests of another course look like is the same replay. */
  lemma SameReplay(s: State, calls: seq<Call>, other: seq<Call>, i: nat, j: nat)
    requires Replay(s, calls, i, j) && Alternative(s, calls, other, i)
    ensures Replay(s, other, i, j)
  {
    assert other[..i] == other[..i + 1][..i] && calls[..i] == calls[..i + 1][..i];
    assert other[i] == other[..i + 1][i] && calls[i] == calls[..i + 1][i];
    forall k | 0 <= k < |calls| ensures SameRequest(calls[k], other[k]) {}
  }

  ghost predicate SomeExcess(s: State, calls: seq<Call>, i: nat, j: nat)
    requires j < |calls|
  {
    exists k: nat :: i < k <= j && ExcessAt(s, calls, k)
  }

  /** The first one. */
  lemma {:induction false} FirstExcess(s: State, calls: seq<Call>, i: nat, j: nat) returns (k: nat)
    requires j < |calls| && SomeExcess(s, calls, i, j)
    ensures i < k <= j && ExcessAt(s, calls, k) && forall h | i < h < k :: !ExcessAt(s, calls, h)
    decreases j
  {
    if j > 0 && SomeExcess(s, calls, i, j - 1) {
      k := FirstExcess(s, calls, i, j - 1);
    } else {
      k := j;
    }
  }

  /**
   Replay protection in terms a caller can observe: whatever eviction picks, a
   nonce shown again within its lifetime can be let through if and only if some
   prune since found more unexpired nonces than the set may hold.
   */
  lemma ReplayPossibleIffExcess(s: State, calls: seq<Call>, i: nat, j: nat)
    requires LegalRun(s, calls) && Replay(s, calls, i, j)
    ensures (exists other :: Alternative(s, calls, other, i) && Allowed(s, other, j)) <==> SomeExcess(s, calls, i, j)
  {
    if SomeExcess(s, calls, i, j) {
      var k := FirstExcess(s, calls, i, j);
      var other := ExcessLetsThrough(s, calls, i, j, k);
    } else {
      forall other | Alternative(s, calls, other, i) ensures !Allowed(s, other, j) {
        SameReplay(s, calls, other, i, j);
        forall k: nat | i < k <= j ensures !ExcessAt(s, other, k) {
          SameCourse(s, calls, other, i, k);
          assert !ExcessAt(s, calls, k) && SameRequest(calls[k], other[k]);
        }
        RefusedWithoutExcess(s, other, i, j);
      }
    }
  }
}
