/** The expiring lock identified by a token: acquire, refresh and an atomic compare-and-delete release. */
module TokenLock {
  import opened Options
  import Runs

  type Token = string

  datatype Entry = Entry(value: Token, expires: nat)

  predicate Live(now: nat, entry: Option<Entry>) {
    entry.Some? && now < entry.value.expires
  }

  predicate Holds(now: nat, entry: Option<Entry>, token: Option<Token>) {
    Live(now, entry) && token == Some(entry.value.value)
  }

  /** SET with NX and EX. */
  function SetIfAbsent(now: nat, entry: Option<Entry>, token: Token, timeout: nat): Option<Entry> {
    if Live(now, entry) then entry else Some(Entry(token, now + timeout))
  }

  /** EXPIRE looks at nothing but the key's presence. */
  function Extended(now: nat, entry: Option<Entry>, timeout: nat): Option<Entry> {
    if Live(now, entry) then Some(entry.value.(expires := now + timeout)) else None
  }

  /** The release script. */
  function DeletedIfEqual(now: nat, entry: Option<Entry>, token: Token): Option<Entry> {
    if Holds(now, entry, Some(token)) then None else entry
  }

  /* The class */

  class Redis {
    var now: nat
    var entry: Option<Entry>

    constructor ()
      ensures now == 0 && entry == None
    {
      now, entry := 0, None;
    }
  }

  datatype Released = Done(removed: bool) | NoToken

  class PersistentLock {
    const redis: Redis
    const timeout: nat
    var lockToken: Option<Token>
    var hasLock: bool

    constructor (redis: Redis, timeout: nat)
      ensures this.redis == redis && this.timeout == timeout && lockToken == None && !hasLock
    {
      this.redis, this.timeout := redis, timeout;
      lockToken, hasLock := None, false;
    }

    /** The new token replaces the old one even when the lock is refused. */
    method Acquire(token: Token) returns (ok: bool)
      modifies this, redis`entry
      ensures ok == !Live(redis.now, old(redis.entry))
      ensures redis.entry == SetIfAbsent(redis.now, old(redis.entry), token, timeout)
      ensures lockToken == Some(token) && hasLock == (old(hasLock) || ok)
      ensures timeout > 0 && !Holds(redis.now, old(redis.entry), Some(token)) ==>
        (ok <==> Holds(redis.now, redis.entry, lockToken))
    {
      lockToken := Some(token);
      ok := !Live(redis.now, redis.entry);
      if ok {
        redis.entry := Some(Entry(token, redis.now + timeout));
        hasLock := true;
      }
    }

    /** Run without interruption: a success extends the caller's own lease, and clears the flag. */
    method Refresh() returns (ok: bool)
      modifies this`hasLock, redis`entry
      ensures ok == Holds(redis.now, old(redis.entry), lockToken)
      ensures redis.entry == if ok then Some(Entry(lockToken.value, redis.now + timeout)) else old(redis.entry)
      ensures hasLock == (old(hasLock) && !ok)
    {
      ok := Holds(redis.now, redis.entry, lockToken);
      if ok {
        redis.entry := Extended(redis.now, redis.entry, timeout);
        hasLock := false;
      }
    }

    method Release() returns (r: Released)
      modifies redis`entry
      ensures r == if lockToken.None? then NoToken else Done(Holds(redis.now, old(redis.entry), lockToken))
      ensures redis.entry == if r == Done(true) then None else old(redis.entry)
    {
      if lockToken.None? {
        return NoToken;
      }
      r := Done(Holds(redis.now, redis.entry, lockToken));
      redis.entry := DeletedIfEqual(redis.now, redis.entry, lockToken.value);
    }
  }

  /* Any number of locks on one key */

  /** `lease` records when the lease this client last set itself ends; it is not a field of the lock. */
  datatype Client = Client(timeout: nat, token: Option<Token>, hasLock: bool, refreshing: bool, lease: Option<nat>)

  datatype State = State(now: nat, entry: Option<Entry>, clients: map<nat, Client>, owners: map<Token, nat>)

  /** A refresh is two commands, so anything can happen between them. */
  datatype Step =
    | Pass(seconds: nat)
    | Create(c: nat, timeout: nat)
    | Acquire(c: nat, token: Token)
    | RefreshGet(c: nat)
    | RefreshExpire(c: nat)
    | Release(c: nat)

  const Start := State(0, None, map[], map[])

  predicate Idle(s: State, c: nat) {
    c in s.clients && !s.clients[c].refreshing
  }

  predicate HeldBy(s: State, c: nat) {
    c in s.clients && Holds(s.now, s.entry, s.clients[c].token)
  }

  /** Tokens are never issued twice. */
  predicate Enabled(s: State, step: Step) {
    match step
    case Pass(_) => true
    case Create(c, _) => c !in s.clients
    case Acquire(c, token) => Idle(s, c) && token !in s.owners
    case RefreshGet(c) => Idle(s, c)
    case RefreshExpire(c) => c in s.clients && s.clients[c].refreshing
    case Release(c) => Idle(s, c) && s.clients[c].token.Some?
  }

  function Next(s: State, step: Step): State
    requires Enabled(s, step)
  {
    match step
    case Pass(seconds) => s.(now := s.now + seconds)
    case Create(c, timeout) => s.(clients := s.clients[c := Client(timeout, None, false, false, None)])
    case Acquire(c, token) =>
      var me := s.clients[c];
      var ok := !Live(s.now, s.entry);
      s.(entry := SetIfAbsent(s.now, s.entry, token, me.timeout), owners := s.owners[token := c],
         clients := s.clients[c := Client(me.timeout, Some(token), me.hasLock || ok, false,
                                          if ok then Some(s.now + me.timeout) else None)])
    case RefreshGet(c) => s.(clients := s.clients[c := s.clients[c].(refreshing := HeldBy(s, c))])
    case RefreshExpire(c) =>
      var me := s.clients[c];
      s.(entry := Extended(s.now, s.entry, me.timeout),
         clients := s.clients[c := Client(me.timeout, me.token, false, false,
                                          if HeldBy(s, c) then Some(s.now + me.timeout) else me.lease)])
    case Release(c) =>
      s.(entry := DeletedIfEqual(s.now, s.entry, s.clients[c].token.value),
         clients := s.clients[c := s.clients[c].(lease := None)])
  }

  function Try(s: State, step: Step): Option<State> {
    if Enabled(s, step) then Some(Next(s, step)) else None
  }

  ghost predicate Reaches(s: State, run: seq<Step>, s': State) {
    Runs.Reaches(Try, s, run, s')
  }

  /* Safety that depends on no timing */

  ghost predicate Inv(s: State) {
    && (s.entry.Some? ==> s.entry.value.value in s.owners)
    && (forall c :: c in s.clients && s.clients[c].token.Some? ==>
          s.clients[c].token.value in s.owners && s.owners[s.clients[c].token.value] == c)
  }

  lemma StepKeepsInv(s: State, step: Step)
    requires Inv(s) && Enabled(s, step)
    ensures Inv(Next(s, step))
  {
  }

  lemma RunKeepsInv(s: State, run: seq<Step>, s': State)
    requires Inv(s) && Reaches(s, run, s')
    ensures Inv(s')
  {
    forall x, step | Inv(x) && Try(x, step).Some? ensures Inv(Try(x, step).value) {
      StepKeepsInv(x, step);
    }
    Runs.RunKeeps(Try, Inv, s, run, s');
  }

  lemma OneHolder(run: seq<Step>, s: State, b: nat, c: nat)
    requires Reaches(Start, run, s) && HeldBy(s, b) && HeldBy(s, c)
    ensures b == c
  {
    RunKeepsInv(Start, run, s);
  }

  /** Whatever step removes or replaces a live entry was taken by the client that set it, releasing with
      the token it set it with. */
  lemma OnlyItsOwnerRemovesALock(run: seq<Step>, s: State, step: Step)
    requires Reaches(Start, run, s) && Enabled(s, step) && Live(s.now, s.entry)
    requires var e := Next(s, step).entry; e.None? || e.value.value != s.entry.value.value
    ensures step.Release? && s.clients[step.c].token == Some(s.entry.value.value)
    ensures s.entry.value.value in s.owners && s.owners[s.entry.value.value] == step.c
  {
    RunKeepsInv(Start, run, s);
  }

  lemma ReleaseLeavesOthersLocks(run: seq<Step>, s: State, b: nat, c: nat)
    requires Reaches(Start, run, s) && Enabled(s, Release(c)) && HeldBy(s, b) && b != c
    ensures Next(s, Release(c)).entry == s.entry && HeldBy(Next(s, Release(c)), b)
  {
    RunKeepsInv(Start, run, s);
  }

  lemma AcquiredIffFree(run: seq<Step>, s: State, c: nat, token: Token)
    requires Reaches(Start, run, s) && Enabled(s, Acquire(c, token)) && s.clients[c].timeout > 0
    ensures HeldBy(Next(s, Acquire(c, token)), c) <==> !Live(s.now, s.entry)
  {
    RunKeepsInv(Start, run, s);
  }

  /* Leases, when every lock on the key has the same timeout */

  ghost predicate Uniform(s: State, timeout: nat) {
    forall c :: c in s.clients ==> s.clients[c].timeout == timeout
  }

  /** A lease that has not ended is still in Redis under the client's token. */
  ghost predicate Leased(s: State, c: nat, timeout: nat)
    requires c in s.clients
  {
    var lease := s.clients[c].lease;
    && (lease.Some? ==> lease.value <= s.now + timeout && s.clients[c].token.Some?)
    && (lease.Some? && s.now < lease.value ==> HeldBy(s, c) && lease.value <= s.entry.value.expires)
    && (HeldBy(s, c) || s.clients[c].refreshing ==> lease.Some?)
  }

  ghost predicate LeaseInv(s: State, timeout: nat) {
    Inv(s) && forall c :: c in s.clients ==> Leased(s, c, timeout)
  }

  lemma PassKeepsLease(s: State, seconds: nat, c: nat, timeout: nat)
    requires c in s.clients && Leased(s, c, timeout)
    ensures Leased(Next(s, Pass(seconds)), c, timeout)
  {
  }

  lemma AcquireKeepsLease(s: State, b: nat, token: Token, c: nat, timeout: nat)
    requires LeaseInv(s, timeout) && Enabled(s, Acquire(b, token)) && Uniform(s, timeout) && c in s.clients
    ensures Leased(Next(s, Acquire(b, token)), c, timeout)
  {
    assert Leased(s, c, timeout);
    if Live(s.now, s.entry) {
      assert s.entry.value.value != token;
      assert Next(s, Acquire(b, token)).entry == s.entry;
    } else {
      assert s.clients[c].token != Some(token);
    }
  }

  lemma RefreshGetKeepsLease(s: State, b: nat, c: nat, timeout: nat)
    requires Enabled(s, RefreshGet(b)) && c in s.clients && Leased(s, c, timeout)
    ensures Leased(Next(s, RefreshGet(b)), c, timeout)
  {
    var s' := Next(s, RefreshGet(b));
    assert s'.clients[c].token == s.clients[c].token && s'.clients[c].lease == s.clients[c].lease;
  }

  /** Only here do the timeouts have to agree: whoever extends the key, it then lasts a full timeout. */
  lemma RefreshExpireKeepsLease(s: State, b: nat, c: nat, timeout: nat)
    requires LeaseInv(s, timeout) && Enabled(s, RefreshExpire(b)) && Uniform(s, timeout) && c in s.clients
    ensures Leased(Next(s, RefreshExpire(b)), c, timeout)
  {
    assert Leased(s, c, timeout);
    var s' := Next(s, RefreshExpire(b));
    assert s'.clients[c].token == s.clients[c].token && s'.clients[c].timeout == timeout;
  }

  lemma ReleaseKeepsLease(s: State, b: nat, c: nat, timeout: nat)
    requires LeaseInv(s, timeout) && Enabled(s, Release(b)) && c in s.clients
    ensures Leased(Next(s, Release(b)), c, timeout)
  {
    assert Leased(s, c, timeout);
  }

  lemma StepKeepsLeases(s: State, step: Step, timeout: nat)
    requires LeaseInv(s, timeout) && Enabled(s, step) && Uniform(s, timeout)
    ensures LeaseInv(Next(s, step), timeout)
  {
    StepKeepsInv(s, step);
    forall c | c in s.clients ensures Leased(Next(s, step), c, timeout) {
      match step
      case Pass(seconds) => PassKeepsLease(s, seconds, c, timeout);
      case Create(_, _) => assert Leased(s, c, timeout);
      case Acquire(b, token) => AcquireKeepsLease(s, b, token, c, timeout);
      case RefreshGet(b) => RefreshGetKeepsLease(s, b, c, timeout);
      case RefreshExpire(b) => RefreshExpireKeepsLease(s, b, c, timeout);
      case Release(b) => ReleaseKeepsLease(s, b, c, timeout);
    }
  }

  lemma {:induction false} EarlierIsUniform(s: State, run: seq<Step>, s': State, timeout: nat)
    requires Reaches(s, run, s') && Uniform(s', timeout)
    ensures Uniform(s, timeout)
    decreases |run|
  {
    if run != [] {
      var next := Next(s, run[0]);
      EarlierIsUniform(next, run[1..], s', timeout);
      forall c | c in s.clients ensures s.clients[c].timeout == timeout {
        assert next.clients[c].timeout == timeout;
      }
    }
  }

  lemma {:induction false} RunKeepsLeases(s: State, run: seq<Step>, s': State, timeout: nat)
    requires LeaseInv(s, timeout) && Reaches(s, run, s') && Uniform(s', timeout)
    ensures LeaseInv(s', timeout)
    decreases |run|
  {
    if run != [] {
      EarlierIsUniform(s, run, s', timeout);
      StepKeepsLeases(s, run[0], timeout);
      RunKeepsLeases(Next(s, run[0]), run[1..], s', timeout);
    }
  }

  predicate InLease(s: State, c: nat) {
    c in s.clients && s.clients[c].lease.Some? && s.now < s.clients[c].lease.value
  }

  /** A client inside its lease holds the lock, so no two clients are. */
  lemma LeasesExclude(run: seq<Step>, s: State, timeout: nat, b: nat, c: nat)
    requires Reaches(Start, run, s) && Uniform(s, timeout) && InLease(s, b)
    ensures HeldBy(s, b)
    ensures InLease(s, c) ==> b == c
  {
    RunKeepsLeases(Start, run, s, timeout);
    assert Leased(s, b, timeout);
    if c in s.clients {
      assert Leased(s, c, timeout);
    }
  }

  /** A refresh can extend a lock that is no longer the caller's, but only once the caller's own lease has
      ended between its two commands; and it never changes whose lock it is. */
  lemma LateRefreshMeansLapsedLease(run: seq<Step>, s: State, timeout: nat, c: nat)
    requires Reaches(Start, run, s) && Uniform(s, timeout) && Enabled(s, RefreshExpire(c))
    requires Live(s.now, s.entry) && !HeldBy(s, c)
    ensures s.clients[c].lease.Some? && s.clients[c].lease.value <= s.now
    ensures timeout > 0 ==> forall b :: HeldBy(s, b) ==> HeldBy(Next(s, RefreshExpire(c)), b)
  {
    RunKeepsLeases(Start, run, s, timeout);
    assert Leased(s, c, timeout);
  }

  /* Runs in which a refresh comes late */

  /** Client 0 has read its own token and is about to extend the key; meanwhile its lease has ended and
      client 1 has acquired. */
  function Overtaken(t: nat, u: nat): State {
    State(t, Some(Entry("b", t + u)),
          map[0 := Client(t, Some("a"), true, true, Some(t)), 1 := Client(u, Some("b"), true, false, Some(t + u))],
          map["a" := 0, "b" := 1])
  }

  lemma OvertakenIsReached(t: nat, u: nat) returns (run: seq<Step>)
    requires t > 0
    ensures Reaches(Start, run, Overtaken(t, u))
  {
    var s;
    run, s := OwnTokenRead(t, u);
    run, s := Runs.Then(Try, Start, run, s, Pass(t));
    run, s := Runs.Then(Try, Start, run, s, Acquire(1, "b"));
    assert s == Overtaken(t, u);
  }

  lemma OwnTokenRead(t: nat, u: nat) returns (run: seq<Step>, s: State)
    requires t > 0
    ensures Reaches(Start, run, s)
    ensures s == State(0, Some(Entry("a", t)),
                       map[0 := Client(t, Some("a"), true, true, Some(t)), 1 := Client(u, None, false, false, None)],
                       map["a" := 0])
  {
    run, s := FirstAcquired(t, u);
    run, s := Runs.Then(Try, Start, run, s, RefreshGet(0));
  }

  lemma FirstAcquired(t: nat, u: nat) returns (run: seq<Step>, s: State)
    ensures Reaches(Start, run, s)
    ensures s == State(0, Some(Entry("a", t)),
                       map[0 := Client(t, Some("a"), true, false, Some(t)), 1 := Client(u, None, false, false, None)],
                       map["a" := 0])
  {
    run, s := Runs.Then(Try, Start, [], Start, Create(0, t));
    run, s := Runs.Then(Try, Start, run, s, Create(1, u));
    run, s := Runs.Then(Try, Start, run, s, Acquire(0, "a"));
  }

  /** The late refresh of `b` makes the lock last beyond the lease that its holder `c` asked for. */
  predicate Prolongs(s: State, b: nat, c: nat) {
    LateRefresh(s, b, c) && s.clients[c].lease == Some(s.entry.value.expires) &&
    var after := Next(s, RefreshExpire(b)).entry; s.entry.value.expires < after.value.expires
  }

  /** When all clients have the same timeout, a refresh that began in time can make another client's lock
      last longer, exactly when the timeout is above one second. */
  lemma LateRefreshProlongs(timeout: nat)
    ensures (exists run, s, b, c :: Reaches(Start, run, s) && Uniform(s, timeout) && Prolongs(s, b, c)) <==> timeout > 1
  {
    if timeout > 1 {
      var run := OvertakenIsReached(timeout, timeout);
      var s;
      run, s := Runs.Then(Try, Start, run, Overtaken(timeout, timeout), Pass(1));
      assert Reaches(Start, run, s) && Uniform(s, timeout) && Prolongs(s, 0, 1);
    }
  }

  /** The refresh of `b` is about to extend the lock that `c` holds. */
  predicate LateRefresh(s: State, b: nat, c: nat) {
    Enabled(s, RefreshExpire(b)) && HeldBy(s, c) && !HeldBy(s, b)
  }

  /** With two timeouts: a run after which the late refresh of the client with the shorter one ends the
      other client's lease early. */
  lemma ShorterLateRefreshCutsALease(t: nat, u: nat)
    requires 0 < t < u
    ensures exists run, s ::
      Reaches(Start, run, s) && Drawn(s, {t, u}) && LateRefresh(s, 0, 1) && InLease(s, 1) &&
      var s1 := Next(Next(s, RefreshExpire(0)), Pass(t)); InLease(s1, 1) && !Live(s1.now, s1.entry)
  {
    var run := OvertakenIsReached(t, u);
    var s := Overtaken(t, u);
    assert Drawn(s, {t, u}) && LateRefresh(s, 0, 1) && InLease(s, 1);
  }

  /* When leases exclude each other */

  ghost predicate Drawn(s: State, timeouts: set<nat>) {
    forall c :: c in s.clients ==> s.clients[c].timeout in timeouts
  }

  ghost predicate Disjoint(s: State) {
    forall b, c :: InLease(s, b) && InLease(s, c) ==> b == c
  }

  ghost predicate Excludes(timeouts: set<nat>) {
    forall run, s :: Reaches(Start, run, s) && Drawn(s, timeouts) ==> Disjoint(s)
  }

  /** After its lease is cut, client 2 acquires inside the lease of client 1. */
  lemma TwoTimeoutsOverlap(t: nat, u: nat, timeouts: set<nat>)
    requires 0 < t < u && t in timeouts && u in timeouts
    ensures !Excludes(timeouts)
  {
    var run := OvertakenIsReached(t, u);
    var s := Overtaken(t, u);
    run, s := Runs.Then(Try, Start, run, s, RefreshExpire(0));
    run, s := Runs.Then(Try, Start, run, s, Pass(t));
    run, s := Runs.Then(Try, Start, run, s, Create(2, u));
    run, s := Runs.Then(Try, Start, run, s, Acquire(2, "c"));
    assert Reaches(Start, run, s) && Drawn(s, timeouts);
    assert InLease(s, 1) && InLease(s, 2);
    assert !Disjoint(s);
  }

  /** Leases exclude each other, in all runs of clients with timeouts from a set of positive ones, exactly
      when no two timeouts of the set differ. */
  lemma LeasesExcludeIffOneTimeout(timeouts: set<nat>)
    requires forall t :: t in timeouts ==> t > 0
    ensures Excludes(timeouts) <==> forall t, u :: t in timeouts && u in timeouts ==> t == u
  {
    if forall t, u :: t in timeouts && u in timeouts ==> t == u {
      forall run, s | Reaches(Start, run, s) && Drawn(s, timeouts) ensures Disjoint(s) {
        forall b, c | InLease(s, b) && InLease(s, c) ensures b == c {
          assert Uniform(s, s.clients[b].timeout);
          LeasesExclude(run, s, s.clients[b].timeout, b, c);
        }
      }
    } else {
      var t, u :| t in timeouts && u in timeouts && t < u;
      TwoTimeoutsOverlap(t, u, timeouts);
    }
  }

  /* What the flag and a second acquire get wrong */

  /** Step `i` of a run from the start is an acquire of `c` that succeeds. */
  ghost predicate Acquires(run: seq<Step>, i: nat, c: nat) {
    i < |run| && run[i].Acquire? && run[i].c == c && exists s :: Reaches(Start, run[..i], s) && !Live(s.now, s.entry)
  }

  /** Step `i` completes a refresh of `c`, which then answers True. */
  predicate Refreshes(run: seq<Step>, i: nat, c: nat) {
    i < |run| && run[i] == RefreshExpire(c)
  }

  ghost predicate AcquiredSinceRefresh(run: seq<Step>, c: nat) {
    exists i: nat :: Acquires(run, i, c) && forall j: nat :: i < j ==> !Refreshes(run, j, c)
  }

  /** What one more step does to that. */
  lemma AcquiredAfter(front: seq<Step>, s: State, last: Step, c: nat)
    requires Reaches(Start, front, s)
    ensures AcquiredSinceRefresh(front + [last], c) <==>
      (last.Acquire? && last.c == c && !Live(s.now, s.entry)) || (last != RefreshExpire(c) && AcquiredSinceRefresh(front, c))
  {
    var run, n := front + [last], |front|;
    assert run[..n] == front;
    assert forall i: nat :: i < n ==> run[..i] == front[..i];
    assert forall i: nat :: i < n ==> (Acquires(run, i, c) <==> Acquires(front, i, c));
    assert forall i: nat :: i < n ==> (Refreshes(run, i, c) <==> Refreshes(front, i, c));
    assert Refreshes(run, n, c) <==> last == RefreshExpire(c);
    if Acquires(run, n, c) {
      var x :| Reaches(Start, run[..n], x) && !Live(x.now, x.entry);
      Runs.OneEnd(Try, Start, front, s, x);
    }
    if AcquiredSinceRefresh(front, c) && last != RefreshExpire(c) {
      var i: nat :| Acquires(front, i, c) && forall j: nat :: i < j ==> !Refreshes(front, j, c);
      assert Acquires(run, i, c);
      assert forall j: nat :: i < j ==> !Refreshes(run, j, c);
    }
  }

  /** What has_lock means in every run: not that the client holds the lock, but that it has acquired
      successfully and has not refreshed successfully since. */
  lemma {:induction false} FlagMeansAcquiredSinceRefresh(run: seq<Step>, s: State, c: nat)
    requires Reaches(Start, run, s)
    ensures c in s.clients && s.clients[c].hasLock <==> AcquiredSinceRefresh(run, c)
    decreases |run|
  {
    if run != [] {
      var front, last := run[..|run| - 1], run[|run| - 1];
      var s1 := Runs.WithoutLast(Try, Start, run, s);
      FlagMeansAcquiredSinceRefresh(front, s1, c);
      assert run == front + [last];
      AcquiredAfter(front, s1, last, c);
    }
  }

  /** Step `i` of a run from the start is the first command of a refresh of `c`, and finds its own token. */
  ghost predicate FindsOwn(run: seq<Step>, i: nat, c: nat) {
    i < |run| && run[i] == RefreshGet(c) && exists s :: Reaches(Start, run[..i], s) && HeldBy(s, c)
  }

  ghost predicate FoundOwnSince(run: seq<Step>, c: nat) {
    exists i: nat :: FindsOwn(run, i, c) && forall j: nat :: i < j ==> !Refreshes(run, j, c)
  }

  lemma FoundOwnAfter(front: seq<Step>, s: State, last: Step, c: nat)
    requires Reaches(Start, front, s)
    ensures FoundOwnSince(front + [last], c) <==>
      (last == RefreshGet(c) && HeldBy(s, c)) || (last != RefreshExpire(c) && FoundOwnSince(front, c))
  {
    var run, n := front + [last], |front|;
    assert run[..n] == front;
    assert forall i: nat :: i < n ==> run[..i] == front[..i];
    assert forall i: nat :: i < n ==> (FindsOwn(run, i, c) <==> FindsOwn(front, i, c));
    assert forall i: nat :: i < n ==> (Refreshes(run, i, c) <==> Refreshes(front, i, c));
    assert Refreshes(run, n, c) <==> last == RefreshExpire(c);
    if FindsOwn(run, n, c) {
      var x :| Reaches(Start, run[..n], x) && HeldBy(x, c);
      Runs.OneEnd(Try, Start, front, s, x);
    }
    if FoundOwnSince(front, c) && last != RefreshExpire(c) {
      var i: nat :| FindsOwn(front, i, c) && forall j: nat :: i < j ==> !Refreshes(front, j, c);
      assert FindsOwn(run, i, c);
      assert forall j: nat :: i < j ==> !Refreshes(run, j, c);
    }
  }

  /** In every run a refresh is about to extend the key exactly if it has found the client's own token there
      and not extended it yet. */
  lemma {:induction false} RefreshFoundOwnLock(run: seq<Step>, s: State, c: nat)
    requires Reaches(Start, run, s)
    ensures Enabled(s, RefreshExpire(c)) <==> FoundOwnSince(run, c)
    decreases |run|
  {
    if run != [] {
      var front, last := run[..|run| - 1], run[|run| - 1];
      var s1 := Runs.WithoutLast(Try, Start, run, s);
      RefreshFoundOwnLock(front, s1, c);
      assert run == front + [last];
      FoundOwnAfter(front, s1, last, c);
    }
  }

  /** A run after which the client holds the lock, having just refreshed it, and has_lock is False. */
  lemma SuccessfulRefreshClearsFlag(timeout: nat)
    requires timeout > 0
    ensures exists run, s :: Reaches(Start, run, s) && HeldBy(s, 0) && s.clients[0].timeout == timeout && !s.clients[0].hasLock
  {
    var run, s := OwnTokenRead(timeout, timeout);
    run, s := Runs.Then(Try, Start, run, s, RefreshExpire(0));
    assert Reaches(Start, run, s) && HeldBy(s, 0);
  }

  /** A run after which the client has released the lock, and has_lock is True. */
  lemma ReleaseLeavesFlag(timeout: nat)
    requires timeout > 0
    ensures exists run, s :: Reaches(Start, run, s) && s.entry == None && 0 in s.clients && s.clients[0].timeout == timeout && s.clients[0].hasLock
  {
    var run, s := FirstAcquired(timeout, timeout);
    run, s := Runs.Then(Try, Start, run, s, Release(0));
    assert Reaches(Start, run, s) && s.entry == None;
  }

  /** Acquiring again while holding loses the lock: it stays in Redis and its own client can no longer
      release it. */
  lemma SecondAcquireOrphansTheLock(run: seq<Step>, s: State, c: nat, token: Token)
    requires Reaches(Start, run, s) && HeldBy(s, c) && Enabled(s, Acquire(c, token))
    ensures var s1 := Next(s, Acquire(c, token));
      !HeldBy(s1, c) && s1.entry == s.entry && Enabled(s1, Release(c)) && Next(s1, Release(c)).entry == s.entry
  {
    RunKeepsInv(Start, run, s);
  }
}
