/** Locks of background jobs: a Redis key with a time to live, its unconditional release and its renewer. */
module TaskLock {
  import opened Options
  import Runs

  /** Seconds: the lifetime that acquiring sets and that a renewer restores by default. */
  const TTL := 300

  /** The lock key.  Its value is the same text whoever sets it; `setBy` is only a record of whose it is. */
  datatype Lease = Lease(expires: nat, setBy: nat)

  predicate Live(now: nat, key: Option<Lease>) {
    key.Some? && now < key.value.expires
  }

  /** SET with NX and EX. */
  function SetIfAbsent(now: nat, key: Option<Lease>, c: nat): Option<Lease> {
    if Live(now, key) then key else Some(Lease(now + TTL, c))
  }

  /** EXPIRE: whoever set the key, its lifetime starts again. */
  function Extended(now: nat, key: Option<Lease>): Option<Lease> {
    if Live(now, key) then Some(key.value.(expires := now + TTL)) else None
  }

  /* Any number of task executions, each acquiring at most once */

  /** One that acquired and has not released: when its lease ends unless it renews, when its renewer last
      tried, and how many tries have failed since it last succeeded. */
  datatype Hold = Hold(expires: nat, tried: nat, failures: nat)

  datatype Renewer = Sleeping | FoundKey

  datatype State = State(now: nat, key: Option<Lease>, holds: map<nat, Hold>, renewers: map<nat, Renewer>)

  datatype Step =
    | Pass(seconds: nat)
    | Acquire(c: nat)
    | CheckExists(c: nat)
    | Expire(c: nat)
    | RenewalFails(c: nat)
    | StopRenewer(c: nat)
    | Release(c: nat)

  const Start := State(0, None, map[], map[])

  /** A renewer can outlive the release: stopping it waits five seconds at most. */
  predicate Enabled(s: State, step: Step) {
    match step
    case Pass(_) => true
    case Acquire(c) => c !in s.holds && c !in s.renewers
    case CheckExists(c) => c in s.renewers && s.renewers[c].Sleeping?
    case Expire(c) => c in s.renewers && s.renewers[c].FoundKey?
    case RenewalFails(c) => c in s.renewers
    case StopRenewer(c) => c in s.renewers
    case Release(c) => c in s.holds
  }

  function Next(s: State, step: Step): State
    requires Enabled(s, step)
  {
    match step
    case Pass(seconds) => s.(now := s.now + seconds)
    case Acquire(c) =>
      if Live(s.now, s.key) then s
      else s.(key := SetIfAbsent(s.now, s.key, c),
              holds := s.holds[c := Hold(s.now + TTL, s.now, 0)], renewers := s.renewers[c := Sleeping])
    case CheckExists(c) =>
      s.(renewers := if Live(s.now, s.key) then s.renewers[c := FoundKey] else s.renewers - {c})
    case Expire(c) =>
      s.(key := Extended(s.now, s.key), renewers := s.renewers[c := Sleeping],
         holds := if c in s.holds && Live(s.now, s.key) then s.holds[c := Hold(s.now + TTL, s.now, 0)] else s.holds)
    case RenewalFails(c) =>
      s.(renewers := s.renewers[c := Sleeping],
         holds := if c in s.holds then s.holds[c := s.holds[c].(tried := s.now, failures := s.holds[c].failures + 1)] else s.holds)
    case StopRenewer(c) => s.(renewers := s.renewers - {c})
    case Release(c) => s.(key := None, holds := s.holds - {c})
  }

  /** Every holder's renewer tries at least every `gap` seconds and fails at most `failures` times in a row. */
  ghost predicate Punctual(s: State, gap: nat, failures: nat) {
    forall c :: c in s.holds ==> s.now <= s.holds[c].tried + gap && s.holds[c].failures <= failures
  }

  /** A step, unless some holder's renewer is late after it. */
  ghost function TryPunctual(gap: nat, failures: nat): (State, Step) -> Option<State> {
    (s: State, step: Step) => if Enabled(s, step) && Punctual(Next(s, step), gap, failures) then Some(Next(s, step)) else None
  }

  /** A run on which every renewer is punctual in every state. */
  ghost predicate PunctualRun(s: State, run: seq<Step>, s': State, gap: nat, failures: nat) {
    Punctual(s, gap, failures) && Runs.Reaches(TryPunctual(gap, failures), s, run, s')
  }

  /* The invariant */

  /** The key is the holder's own and lasts at least as long as the holder's lease. */
  ghost predicate Covered(s: State, c: nat)
    requires c in s.holds
  {
    s.key.Some? && s.key.value.setBy == c && s.holds[c].expires <= s.key.value.expires && s.holds[c].expires <= s.now + TTL
  }

  /** What failed tries have cost so far. */
  ghost predicate OnSchedule(s: State, c: nat, gap: nat)
    requires c in s.holds
  {
    s.holds[c].tried + TTL <= s.holds[c].expires + s.holds[c].failures * gap
  }

  ghost predicate Inv(s: State, gap: nat) {
    forall c :: c in s.holds ==> Covered(s, c) && OnSchedule(s, c, gap)
  }

  ghost predicate Timely(s: State) {
    forall c :: c in s.holds ==> s.now < s.holds[c].expires
  }

  lemma PunctualIsTimely(s: State, gap: nat, failures: nat)
    requires Inv(s, gap) && Punctual(s, gap, failures) && (failures + 1) * gap < TTL
    ensures Timely(s)
  {
    forall c | c in s.holds ensures s.now < s.holds[c].expires {
      assert OnSchedule(s, c, gap);
      assert s.holds[c].failures * gap + gap <= (failures + 1) * gap;
    }
  }

  lemma StepKeepsInv(s: State, step: Step, gap: nat, failures: nat)
    requires Inv(s, gap) && Timely(s) && Punctual(s, gap, failures) && Enabled(s, step)
    ensures Inv(Next(s, step), gap)
  {
    var s' := Next(s, step);
    if step.Release? {
      assert Covered(s, step.c);
    }
    forall c | c in s'.holds ensures Covered(s', c) && OnSchedule(s', c, gap) {
      if c in s.holds {
        assert Covered(s, c) && OnSchedule(s, c, gap);
        assert (s.holds[c].failures + 1) * gap == s.holds[c].failures * gap + gap;
      }
    }
  }

  lemma PunctualRunKeepsInv(s: State, run: seq<Step>, s': State, gap: nat, failures: nat)
    requires Inv(s, gap) && PunctualRun(s, run, s', gap, failures) && (failures + 1) * gap < TTL
    ensures Inv(s', gap) && Timely(s')
  {
    var next := TryPunctual(gap, failures);
    var sane := (x: State) => Inv(x, gap) && Punctual(x, gap, failures);
    forall x, step | sane(x) && next(x, step).Some? ensures sane(next(x, step).value) {
      PunctualIsTimely(x, gap, failures);
      StepKeepsInv(x, step, gap, failures);
    }
    Runs.RunKeeps(next, sane, s, run, s');
    PunctualIsTimely(s', gap, failures);
  }

  /* Mutual exclusion, and exactly how much lateness it survives */

  ghost predicate OneHolder(s: State) {
    forall b, c :: b in s.holds && c in s.holds ==> b == c
  }

  ghost predicate Excludes(gap: nat, failures: nat) {
    forall run, s :: PunctualRun(Start, run, s, gap, failures) ==> OneHolder(s)
  }

  lemma MarginSuffices(run: seq<Step>, s: State, gap: nat, failures: nat)
    requires PunctualRun(Start, run, s, gap, failures) && (failures + 1) * gap < TTL
    ensures OneHolder(s)
    ensures forall c :: c in s.holds ==> Live(s.now, s.key) && s.key.value.setBy == c
  {
    PunctualRunKeepsInv(Start, run, s, gap, failures);
    forall c | c in s.holds ensures Live(s.now, s.key) && s.key.value.setBy == c {
      assert Covered(s, c);
    }
  }

  /** Within the margin the key a holder deletes is its own, and nobody is left holding. */
  lemma ReleaseTakesOwnLock(run: seq<Step>, s: State, c: nat, gap: nat, failures: nat)
    requires PunctualRun(Start, run, s, gap, failures) && (failures + 1) * gap < TTL && c in s.holds
    ensures s.key.Some? && s.key.value.setBy == c && Next(s, Release(c)).holds == map[]
  {
    MarginSuffices(run, s, gap, failures);
    assert Next(s, Release(c)).holds.Keys == {};
  }

  /** No one else acquires while the lock is held. */
  lemma HeldMeansRefused(run: seq<Step>, s: State, b: nat, c: nat, gap: nat, failures: nat)
    requires PunctualRun(Start, run, s, gap, failures) && (failures + 1) * gap < TTL
    requires b in s.holds && Enabled(s, Acquire(c))
    ensures Next(s, Acquire(c)) == s
  {
    MarginSuffices(run, s, gap, failures);
  }

  /** Holder 0 after `n` tries that failed, each `gap` seconds after the one before. */
  function LateHolder(n: nat, gap: nat): State {
    State(n * gap, Some(Lease(TTL, 0)), map[0 := Hold(TTL, n * gap, n)], map[0 := Sleeping])
  }

  lemma {:induction false} FailingRun(n: nat, gap: nat, failures: nat) returns (run: seq<Step>)
    requires n <= failures
    ensures PunctualRun(Start, run, LateHolder(n, gap), gap, failures)
  {
    if n == 0 {
      var s;
      run, s := Runs.Then(TryPunctual(gap, failures), Start, [], Start, Acquire(0));
      assert s == LateHolder(0, gap);
    } else {
      run := FailingRun(n - 1, gap, failures);
      run := FailOnce(run, n - 1, gap, failures);
    }
  }

  lemma FailOnce(run: seq<Step>, n: nat, gap: nat, failures: nat) returns (longer: seq<Step>)
    requires n < failures && PunctualRun(Start, run, LateHolder(n, gap), gap, failures)
    ensures PunctualRun(Start, longer, LateHolder(n + 1, gap), gap, failures)
  {
    var s := LateHolder(n, gap);
    assert n * gap + gap == (n + 1) * gap;
    longer, s := Runs.Then(TryPunctual(gap, failures), Start, run, s, Pass(gap));
    assert s == LateHolder(n, gap).(now := (n + 1) * gap);
    longer, s := Runs.Then(TryPunctual(gap, failures), Start, longer, s, RenewalFails(0));
    assert s == LateHolder(n + 1, gap);
  }

  /** Holder 0, renewed last at `tried`. */
  function Holder(tried: nat, now: nat, renewer: Renewer): State {
    State(now, Some(Lease(tried + 300, 0)), map[0 := Hold(tried + 300, tried, 0)], map[0 := renewer])
  }

  /** Renewing works: with any gap below the lifetime there are punctual runs of any length without failures
      at the end of which the first holder still has its lock, for a whole lifetime. */
  lemma {:induction false} RenewedForLong(n: nat, gap: nat) returns (run: seq<Step>)
    requires gap < 300
    ensures PunctualRun(Start, run, Holder(n * gap, n * gap, Sleeping), gap, 0)
  {
    if n == 0 {
      var s;
      run, s := Runs.Then(TryPunctual(gap, 0), Start, [], Start, Acquire(0));
      assert s == Holder(0, 0, Sleeping);
    } else {
      run := RenewedForLong(n - 1, gap);
      run := RenewOnce(run, (n - 1) * gap, gap);
      assert (n - 1) * gap + gap == n * gap;
    }
  }

  lemma RenewOnce(run: seq<Step>, at: nat, gap: nat) returns (longer: seq<Step>)
    requires gap < 300 && PunctualRun(Start, run, Holder(at, at, Sleeping), gap, 0)
    ensures PunctualRun(Start, longer, Holder(at + gap, at + gap, Sleeping), gap, 0)
  {
    longer := GapPasses(run, at, gap);
    longer := KeyIsFound(longer, at, gap);
    longer := KeyIsExtended(longer, at, gap);
  }

  lemma GapPasses(run: seq<Step>, at: nat, gap: nat) returns (longer: seq<Step>)
    requires PunctualRun(Start, run, Holder(at, at, Sleeping), gap, 0)
    ensures PunctualRun(Start, longer, Holder(at, at + gap, Sleeping), gap, 0)
  {
    var s;
    longer, s := Runs.Then(TryPunctual(gap, 0), Start, run, Holder(at, at, Sleeping), Pass(gap));
    assert s == Holder(at, at + gap, Sleeping);
  }

  lemma KeyIsExtended(run: seq<Step>, at: nat, gap: nat) returns (longer: seq<Step>)
    requires gap < 300 && PunctualRun(Start, run, Holder(at, at + gap, FoundKey), gap, 0)
    ensures PunctualRun(Start, longer, Holder(at + gap, at + gap, Sleeping), gap, 0)
  {
    var s;
    assert Next(Holder(at, at + gap, FoundKey), Expire(0)) == Holder(at + gap, at + gap, Sleeping);
    longer, s := Runs.Then(TryPunctual(gap, 0), Start, run, Holder(at, at + gap, FoundKey), Expire(0));
  }

  lemma KeyIsFound(run: seq<Step>, at: nat, gap: nat) returns (longer: seq<Step>)
    requires gap < 300 && PunctualRun(Start, run, Holder(at, at + gap, Sleeping), gap, 0)
    ensures PunctualRun(Start, longer, Holder(at, at + gap, FoundKey), gap, 0)
  {
    var s;
    longer, s := Runs.Then(TryPunctual(gap, 0), Start, run, Holder(at, at + gap, Sleeping), CheckExists(0));
    assert s == Holder(at, at + gap, FoundKey);
  }

  /** The lock has lapsed under holder 0, and 1 has acquired it. */
  lemma TakenOver(gap: nat, failures: nat) returns (run: seq<Step>, s: State)
    requires TTL <= (failures + 1) * gap
    ensures PunctualRun(Start, run, s, gap, failures)
    ensures s.holds.Keys == {0, 1} && Live(s.now, s.key) && s.key.value.setBy == 1
  {
    run := FailingRun(failures, gap, failures);
    s := LateHolder(failures, gap);
    run, s := Runs.Then(TryPunctual(gap, failures), Start, run, s, Pass(gap));
    assert s.now == (failures + 1) * gap;
    run, s := Runs.Then(TryPunctual(gap, failures), Start, run, s, Acquire(1));
  }

  lemma MarginIsNeeded(gap: nat, failures: nat)
    requires TTL <= (failures + 1) * gap
    ensures !Excludes(gap, failures)
  {
    var run, s := TakenOver(gap, failures);
    assert 0 in s.holds && 1 in s.holds;
    assert !OneHolder(s);
  }

  /** Punctual renewals keep the lock exclusive exactly when one more gap than the failures they may
      suffer in a row still fits in the lifetime. */
  lemma ExclusiveIffMargin(gap: nat, failures: nat)
    ensures Excludes(gap, failures) <==> (failures + 1) * gap < TTL
  {
    if (failures + 1) * gap < TTL {
      forall run, s | PunctualRun(Start, run, s, gap, failures) ensures OneHolder(s) {
        MarginSuffices(run, s, gap, failures);
      }
    } else {
      MarginIsNeeded(gap, failures);
    }
  }

  /** The default interval of 120 seconds tolerates one failed renewal, with up to 29 seconds of delay. */
  lemma DefaultsTolerateOneFailure(delay: nat)
    ensures Excludes(120 + delay, 1) <==> delay < 30
    ensures !Excludes(120, 2)
  {
    ExclusiveIffMargin(120 + delay, 1);
    ExclusiveIffMargin(120, 2);
  }

  /** Every release that finds a live key deletes the releaser's own lock. */
  ghost predicate ReleasesOwn(gap: nat, failures: nat) {
    forall run, s, c :: PunctualRun(Start, run, s, gap, failures) && c in s.holds && Live(s.now, s.key) ==> s.key.value.setBy == c
  }

  /** What goes wrong past the margin: a run after which the late holder's release deletes the lock of the
      one that took over, which goes on holding. */
  lemma LateReleaseDeletesAnothersLock(gap: nat, failures: nat)
    requires TTL <= (failures + 1) * gap
    ensures exists run, s, b, c ::
      PunctualRun(Start, run, s, gap, failures) && Enabled(s, Release(b)) && b != c &&
      Live(s.now, s.key) && s.key.value.setBy == c && Next(s, Release(b)).key == None && c in Next(s, Release(b)).holds
  {
    var run, s := TakenOver(gap, failures);
    assert Enabled(s, Release(0)) && 1 in Next(s, Release(0)).holds;
  }

  /** The release deletes the key whoever set it.  That it only ever deletes the releaser's own lock holds
      exactly within the margin. */
  lemma ReleaseIsOwnIffMargin(gap: nat, failures: nat)
    ensures ReleasesOwn(gap, failures) <==> (failures + 1) * gap < TTL
  {
    if (failures + 1) * gap < TTL {
      forall run, s, c | PunctualRun(Start, run, s, gap, failures) && c in s.holds && Live(s.now, s.key)
        ensures s.key.value.setBy == c
      {
        MarginSuffices(run, s, gap, failures);
      }
    } else {
      LateReleaseDeletesAnothersLock(gap, failures);
    }
  }

  /* The renewer's loop */

  datatype Outcome = Stop | Reached | Raised

  /** One turn of the loop: how long the wait lasted, and whether it was told to stop, Redis answered, or
      an exception was logged. */
  datatype Wakeup = Wakeup(waited: nat, outcome: Outcome)

  /** The key expires before some turn that reaches it, `left` seconds from now. */
  ghost predicate Lapses(left: int, turns: seq<Wakeup>)
    decreases |turns|
  {
    turns != [] &&
    match turns[0].outcome
    case Stop => false
    case Raised => Lapses(left - turns[0].waited, turns[1..])
    case Reached => left <= turns[0].waited || Lapses(TTL, turns[1..])
  }

  /** Turns no more than `gap` seconds apart, no more than `failures` of them failing in a row. */
  ghost predicate Regular(turns: seq<Wakeup>, gap: nat, failures: nat, failed: nat) {
    failed <= failures &&
    (turns == [] || (turns[0].waited <= gap &&
                     Regular(turns[1..], gap, failures, if turns[0].outcome.Raised? then failed + 1 else 0)))
  }

  lemma {:induction false} RegularNeverLapses(left: int, turns: seq<Wakeup>, gap: nat, failures: nat, failed: nat)
    requires Regular(turns, gap, failures, failed) && (failures + 1) * gap < TTL && left >= TTL - failed * gap
    ensures !Lapses(left, turns)
    decreases |turns|
  {
    if turns != [] {
      assert failed * gap + gap <= (failures + 1) * gap;
      match turns[0].outcome {
        case Stop =>
        case Raised =>
          assert (failed + 1) * gap == failed * gap + gap;
          RegularNeverLapses(left - turns[0].waited, turns[1..], gap, failures, failed + 1);
        case Reached => RegularNeverLapses(TTL, turns[1..], gap, failures, 0);
      }
    }
  }

  class Server {
    var now: nat
    var key: Option<Lease>

    constructor ()
      ensures key == None && now == 0
    {
      now, key := 0, None;
    }

    method AcquireTaskLock(c: nat) returns (ok: bool)
      modifies this`key
      ensures ok == !Live(now, old(key))
      ensures key == SetIfAbsent(now, old(key), c)
    {
      ok := !Live(now, key);
      if ok {
        key := Some(Lease(now + TTL, c));
      }
    }

    method ReleaseTaskLock()
      modifies this`key
      ensures key == None
    {
      key := None;
    }

    /** The loop with nobody else touching the key: it gives up exactly when the key has lapsed, and until
        then the key stays with whoever set it.  `done` turns end in waiting again; the last of them that
        reached the server decides when the key expires. */
    method RenewLoop(turns: seq<Wakeup>) returns (lost: bool, ghost done: nat)
      requires key.Some?
      modifies this
      ensures lost == Lapses(old(key).value.expires - old(now), turns)
      ensures key.Some? && key.value.setBy == old(key).value.setBy
      ensures lost ==> !Live(now, key)
      ensures done <= |turns| && forall i :: 0 <= i < done ==> !turns[i].outcome.Stop?
      ensures if lost then done < |turns| && turns[done].outcome.Reached? else done == |turns| || turns[done].outcome.Stop?
      ensures key.value.expires == ExpiresAfter(turns, done, old(now), old(key).value.expires)
    {
      lost, done := false, 0;
      var i := 0;
      while i < |turns|
        invariant 0 <= i <= |turns| && !lost && done == i
        invariant now == old(now) + Waited(turns, i)
        invariant key.Some? && key.value.setBy == old(key).value.setBy
        invariant Lapses(old(key).value.expires - old(now), turns) == Lapses(key.value.expires - now, turns[i..])
        invariant forall j :: 0 <= j < i ==> !turns[j].outcome.Stop?
        invariant key.value.expires == ExpiresAfter(turns, i, old(now), old(key).value.expires)
      {
        assert turns[i..][1..] == turns[i + 1..];
        now := now + turns[i].waited;
        match turns[i].outcome {
          case Stop => return;
          case Raised =>
          case Reached =>
            if !Live(now, key) {
              lost := true;
              return;
            }
            key := Some(key.value.(expires := now + TTL));
        }
        i := i + 1;
        done := i;
      }
    }
  }

  /** The last of the first `n` turns that reached the server. */
  function LastReached(turns: seq<Wakeup>, n: nat): (j: Option<nat>)
    requires n <= |turns|
    ensures j.None? ==> forall i :: 0 <= i < n ==> !turns[i].outcome.Reached?
    ensures j.Some? ==> j.value < n && turns[j.value].outcome.Reached? && forall i :: j.value < i < n ==> !turns[i].outcome.Reached?
  {
    if n == 0 then None else if turns[n - 1].outcome.Reached? then Some(n - 1) else LastReached(turns, n - 1)
  }

  /** A lifetime after that turn, or as before. */
  function ExpiresAfter(turns: seq<Wakeup>, n: nat, since: nat, before: nat): nat
    requires n <= |turns|
  {
    match LastReached(turns, n)
    case None => before
    case Some(j) => since + Waited(turns, j + 1) + 300
  }

  /** The seconds that the first `n` turns took. */
  function Waited(turns: seq<Wakeup>, n: nat): nat
    requires n <= |turns|
  {
    if n == 0 then 0 else Waited(turns, n - 1) + turns[n - 1].waited
  }
}
