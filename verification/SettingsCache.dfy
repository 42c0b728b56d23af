/** The versioned cache of one settings group, as interleaved steps of readers and writers.

    A reader misses, reads the version, reads the row, reads the version again and, if it has not
    changed, fills the cache.  A writer commits the row, deletes the entry and then bumps the version.
    Each cache operation is a step of its own and can fail.  The steps of a run are numbered, and a
    version is the number of the step that wrote it, which stands for a nanosecond clock that never
    returns the same reading twice. */
module SettingsCache {
  import opened Options
  import Runs

  /** The default_user_agent entry of the stream settings. */
  datatype Setting = Unset | Id(id: int) | Invalid

  /** The JSON value of a settings group: the entry that another cache is derived from, and the others. */
  datatype Value = Value(defaultAgent: Setting, others: string)

  const TTL := 300

  /** A filled entry, with the steps at which its reader read the row, rechecked and filled. */
  datatype Entry = Entry(value: Value, readAt: nat, checkedAt: nat, setAt: nat, filledTime: nat)

  datatype Reader =
    | Missed
    | Versioned(ver: Option<nat>)
    | Loaded(ver: Option<nat>, value: Value, readAt: nat)
    | Checked(value: Value, readAt: nat, checkedAt: nat)

  datatype Stage = ToDelete | ToBump | Finished

  /** A writer whose row is committed; a missing step number after its stage means that step failed. */
  datatype Writer = Writer(committedAt: nat, deletedAt: Option<nat>, bumpedAt: Option<nat>, stage: Stage)

  datatype State = State(
    db: Value,
    entry: Option<Entry>,
    ver: Option<nat>,
    readers: map<nat, Reader>,
    writers: seq<Writer>,
    steps: nat,
    time: nat)

  datatype Step =
    | Get(r: nat)
    | ReadVersion(r: nat)
    | Load(r: nat)
    | Recheck(r: nat)
    | Fill(r: nat)
    | Abandon(r: nat)
    | Commit(value: Value)
    | Delete(w: nat, ok: bool)
    | Bump(w: nat, ok: bool)
    | Evict
    | Pass(seconds: nat)

  /** The entry a cache lookup returns now. */
  function Cached(s: State): Option<Entry> {
    if s.entry.Some? && s.time < s.entry.value.filledTime + TTL then s.entry else None
  }

  predicate Enabled(s: State, step: Step) {
    match step
    case Get(r) => r !in s.readers
    case ReadVersion(r) => r in s.readers && s.readers[r].Missed?
    case Load(r) => r in s.readers && s.readers[r].Versioned?
    case Recheck(r) => r in s.readers && s.readers[r].Loaded?
    case Fill(r) => r in s.readers && s.readers[r].Checked?
    case Abandon(r) => r in s.readers
    case Commit(_) => true
    case Delete(w, _) => w < |s.writers| && s.writers[w].stage.ToDelete?
    case Bump(w, _) => w < |s.writers| && s.writers[w].stage.ToBump?
    case Evict => true
    case Pass(_) => true
  }

  function Effect(s: State, step: Step): State
    requires Enabled(s, step)
  {
    match step
    case Get(r) => if Cached(s).Some? then s else s.(readers := s.readers[r := Missed])
    case ReadVersion(r) => s.(readers := s.readers[r := Versioned(s.ver)])
    case Load(r) => s.(readers := s.readers[r := Loaded(s.readers[r].ver, s.db, s.steps)])
    case Recheck(r) =>
      if s.ver == s.readers[r].ver then
        s.(readers := s.readers[r := Checked(s.readers[r].value, s.readers[r].readAt, s.steps)])
      else
        s.(readers := s.readers - {r})
    case Fill(r) =>
      var me := s.readers[r];
      s.(entry := Some(Entry(me.value, me.readAt, me.checkedAt, s.steps, s.time)), readers := s.readers - {r})
    case Abandon(r) => s.(readers := s.readers - {r})
    case Commit(value) => s.(db := value, writers := s.writers + [Writer(s.steps, None, None, ToDelete)])
    case Delete(w, ok) =>
      var me := s.writers[w];
      if ok then s.(entry := None, writers := s.writers[w := me.(deletedAt := Some(s.steps), stage := ToBump)])
      else s.(writers := s.writers[w := me.(stage := ToBump)])
    case Bump(w, ok) =>
      var me := s.writers[w];
      if ok then s.(ver := Some(s.steps), writers := s.writers[w := me.(bumpedAt := Some(s.steps), stage := Finished)])
      else s.(writers := s.writers[w := me.(stage := Finished)])
    case Evict => s.(entry := None)
    case Pass(seconds) => s.(time := s.time + seconds)
  }

  function Next(s: State, step: Step): State
    requires Enabled(s, step)
  {
    Effect(s, step).(steps := s.steps + 1)
  }

  function Start(db: Value): State {
    State(db, None, None, map[], [], 0, 0)
  }

  function Try(s: State, step: Step): Option<State> {
    if Enabled(s, step) then Some(Next(s, step)) else None
  }

  ghost predicate Reaches(s: State, run: seq<Step>, s': State) {
    Runs.Reaches(Try, s, run, s')
  }

  /* The invariant */

  /** The value was read from the row at the step, and whatever made it stale committed later. */
  ghost predicate CurrentUnlessCommitted(s: State, value: Value, readAt: nat) {
    value == s.db || exists w :: 0 <= w < |s.writers| && readAt < s.writers[w].committedAt
  }

  /** No writer that committed after the read bumped the version before the recheck. */
  ghost predicate UnbumpedAtCheck(w: Writer, readAt: nat, checkedAt: nat) {
    readAt < w.committedAt && w.bumpedAt.Some? ==> checkedAt < w.bumpedAt.value
  }

  ghost predicate SaneWriter(s: State, w: Writer) {
    && w.committedAt < s.steps
    && (w.deletedAt.Some? ==> w.committedAt < w.deletedAt.value < s.steps && !w.stage.ToDelete?)
    && (w.bumpedAt.Some? ==> w.committedAt < w.bumpedAt.value < s.steps && w.stage.Finished?)
    && (w.bumpedAt.Some? ==> s.ver.Some? && w.bumpedAt.value <= s.ver.value)
    && (w.deletedAt.Some? && w.bumpedAt.Some? ==> w.deletedAt.value < w.bumpedAt.value)
  }

  ghost predicate SaneReader(s: State, r: Reader) {
    match r
    case Missed => true
    case Versioned(ver) => ver.Some? ==> ver.value < s.steps
    case Loaded(ver, value, readAt) =>
      && readAt < s.steps && (ver.Some? ==> ver.value < readAt)
      && CurrentUnlessCommitted(s, value, readAt)
    case Checked(value, readAt, checkedAt) =>
      && readAt < checkedAt < s.steps
      && CurrentUnlessCommitted(s, value, readAt)
      && forall w :: 0 <= w < |s.writers| ==>
           UnbumpedAtCheck(s.writers[w], readAt, checkedAt) && s.writers[w].deletedAt != Some(checkedAt)
  }

  ghost predicate SaneEntry(s: State, e: Entry) {
    && e.readAt < e.checkedAt < e.setAt < s.steps && e.filledTime <= s.time
    && CurrentUnlessCommitted(s, e.value, e.readAt)
    && forall w :: 0 <= w < |s.writers| ==>
         && UnbumpedAtCheck(s.writers[w], e.readAt, e.checkedAt)
         && s.writers[w].deletedAt != Some(e.checkedAt)
         && (s.writers[w].deletedAt.Some? ==> s.writers[w].deletedAt.value < e.setAt)
  }

  ghost predicate Inv(s: State) {
    && (s.ver.Some? ==> s.ver.value < s.steps)
    && (forall w :: 0 <= w < |s.writers| ==> SaneWriter(s, s.writers[w]))
    && (forall r :: r in s.readers ==> SaneReader(s, s.readers[r]))
    && (s.entry.Some? ==> SaneEntry(s, s.entry.value))
  }

  lemma CommittedStays(s: State, step: Step, value: Value, readAt: nat)
    requires Enabled(s, step) && CurrentUnlessCommitted(s, value, readAt) && readAt < s.steps
    ensures CurrentUnlessCommitted(Next(s, step), value, readAt)
  {
    var s' := Next(s, step);
    if value != s.db {
      var w :| 0 <= w < |s.writers| && readAt < s.writers[w].committedAt;
      assert s'.writers[w].committedAt == s.writers[w].committedAt;
    }
    if step.Commit? {
      assert s'.writers[|s.writers|].committedAt == s.steps;
    }
  }

  lemma WriterStaysSane(s: State, step: Step, w: nat)
    requires w < |s.writers| && SaneWriter(s, s.writers[w]) && Enabled(s, step)
    requires s.ver.Some? ==> s.ver.value < s.steps
    ensures SaneWriter(Next(s, step), Next(s, step).writers[w])
  {
    if step == Bump(w, true) || step == Bump(w, false) {
    } else if step == Delete(w, true) || step == Delete(w, false) {
    } else {
      assert Next(s, step).writers[w] == s.writers[w];
    }
  }

  lemma CheckedStays(s: State, step: Step, readAt: nat, checkedAt: nat, w: nat)
    requires w < |s.writers| && Enabled(s, step) && checkedAt < s.steps
    requires UnbumpedAtCheck(s.writers[w], readAt, checkedAt) && s.writers[w].deletedAt != Some(checkedAt)
    ensures UnbumpedAtCheck(Next(s, step).writers[w], readAt, checkedAt) && Next(s, step).writers[w].deletedAt != Some(checkedAt)
  {
  }

  lemma CommitAddsWriter(s: State, step: Step)
    requires Enabled(s, step)
    ensures |Next(s, step).writers| == |s.writers| + if step.Commit? then 1 else 0
    ensures step.Commit? ==> Next(s, step).writers[|s.writers|] == Writer(s.steps, None, None, ToDelete)
  {
  }

  lemma ReaderStaysSane(s: State, step: Step, me: Reader)
    requires Inv(s) && Enabled(s, step) && SaneReader(s, me)
    ensures SaneReader(Next(s, step), me)
  {
    var s' := Next(s, step);
    match me
    case Loaded(_, value, readAt) => CommittedStays(s, step, value, readAt);
    case Checked(value, readAt, checkedAt) =>
      CommittedStays(s, step, value, readAt);
      CommitAddsWriter(s, step);
      forall w | 0 <= w < |s'.writers|
        ensures UnbumpedAtCheck(s'.writers[w], readAt, checkedAt) && s'.writers[w].deletedAt != Some(checkedAt)
      {
        if w < |s.writers| {
          CheckedStays(s, step, readAt, checkedAt, w);
        }
      }
    case _ =>
  }

  /** The recheck found the version it read before, so nobody who committed after the read has bumped. */
  lemma RecheckedIsSane(s: State, r: nat)
    requires Inv(s) && Enabled(s, Recheck(r)) && s.ver == s.readers[r].ver
    ensures SaneReader(Next(s, Recheck(r)), Checked(s.readers[r].value, s.readers[r].readAt, s.steps))
  {
    var me := s.readers[r];
    assert SaneReader(s, me);
    CommittedStays(s, Recheck(r), me.value, me.readAt);
    forall w | 0 <= w < |s.writers|
      ensures UnbumpedAtCheck(s.writers[w], me.readAt, s.steps) && s.writers[w].deletedAt != Some(s.steps)
    {
      assert SaneWriter(s, s.writers[w]);
    }
  }

  lemma FilledIsSane(s: State, r: nat)
    requires Inv(s) && Enabled(s, Fill(r))
    ensures SaneEntry(Next(s, Fill(r)), Next(s, Fill(r)).entry.value)
  {
    var me := s.readers[r];
    assert SaneReader(s, me);
    CommittedStays(s, Fill(r), me.value, me.readAt);
    forall w | 0 <= w < |s.writers|
      ensures s.writers[w].deletedAt.Some? ==> s.writers[w].deletedAt.value < s.steps
    {
      assert SaneWriter(s, s.writers[w]);
    }
  }

  /** An entry stays only through steps that do not delete it. */
  lemma DeletedEarlier(s: State, step: Step, w: nat)
    requires Enabled(s, step) && s.entry.Some? && Next(s, step).entry.Some? && w < |s.writers|
    ensures w < |Next(s, step).writers|
    ensures step.Fill? || Next(s, step).writers[w].deletedAt.None? || Next(s, step).writers[w].deletedAt == s.writers[w].deletedAt
  {
  }

  lemma EntryStaysSane(s: State, step: Step)
    requires Inv(s) && Enabled(s, step) && Next(s, step).entry.Some?
    ensures SaneEntry(Next(s, step), Next(s, step).entry.value)
  {
    if step.Fill? {
      FilledIsSane(s, step.r);
    } else {
      var e, s' := s.entry.value, Next(s, step);
      CommittedStays(s, step, e.value, e.readAt);
      CommitAddsWriter(s, step);
      forall w | 0 <= w < |s'.writers|
        ensures UnbumpedAtCheck(s'.writers[w], e.readAt, e.checkedAt) && s'.writers[w].deletedAt != Some(e.checkedAt)
        ensures s'.writers[w].deletedAt.Some? ==> s'.writers[w].deletedAt.value < e.setAt
      {
        if w < |s.writers| {
          CheckedStays(s, step, e.readAt, e.checkedAt, w);
          DeletedEarlier(s, step, w);
        }
      }
    }
  }

  lemma StepKeepsInv(s: State, step: Step)
    requires Inv(s) && Enabled(s, step)
    ensures Inv(Next(s, step))
  {
    var s' := Next(s, step);
    CommitAddsWriter(s, step);
    forall w | 0 <= w < |s'.writers|
      ensures SaneWriter(s', s'.writers[w])
    {
      if w < |s.writers| {
        WriterStaysSane(s, step, w);
      }
    }
    forall r | r in s'.readers
      ensures SaneReader(s', s'.readers[r])
    {
      if r in s.readers && s'.readers[r] == s.readers[r] {
        ReaderStaysSane(s, step, s.readers[r]);
      } else if step.Recheck? {
        RecheckedIsSane(s, r);
      } else if step.Load? {
        assert SaneReader(s, s.readers[r]);
      }
    }
    if s'.entry.Some? {
      EntryStaysSane(s, step);
    }
  }

  lemma RunKeepsInv(s: State, run: seq<Step>, s': State)
    requires Inv(s) && Reaches(s, run, s')
    ensures Inv(s')
  {
    forall x, step | Inv(x) && Try(x, step).Some? ensures Inv(Try(x, step).value) {
      StepKeepsInv(x, step);
    }
    Runs.RunKeeps(Try, Inv, s, run, s');
  }

  /* What a stale entry means */

  /** The writer has not deleted the entry or bumped the version yet, or failed to. */
  predicate NotInvalidated(w: Writer) {
    w.deletedAt.None? || w.bumpedAt.None?
  }

  /** The reader rechecked before this writer bumped and filled after it deleted. */
  predicate Crosses(w: Writer, e: Entry) {
    w.deletedAt.Some? && w.deletedAt.value < e.setAt && w.bumpedAt.Some? && e.checkedAt < w.bumpedAt.value
  }

  /** In every run: a cached value that differs from the row was read before some commit, and every
      writer that committed after that read either has not invalidated (yet) or was crossed by the fill. */
  lemma StaleEntryExplained(db: Value, run: seq<Step>, s: State)
    requires Reaches(Start(db), run, s) && s.entry.Some? && s.entry.value.value != s.db
    ensures exists w :: 0 <= w < |s.writers| && s.entry.value.readAt < s.writers[w].committedAt
    ensures forall w :: 0 <= w < |s.writers| && s.entry.value.readAt < s.writers[w].committedAt ==>
              NotInvalidated(s.writers[w]) || Crosses(s.writers[w], s.entry.value)
  {
    RunKeepsInv(Start(db), run, s);
  }

  /** A writer's delete and bump succeeded as adjacent steps. */
  predicate InvalidatesAtOnce(w: Writer) {
    w.deletedAt.Some? && w.bumpedAt.Some? && w.bumpedAt.value == w.deletedAt.value + 1
  }

  /** With delete-and-bump and recheck-and-fill each uninterrupted, a cached group equals the row
      unless a writer has committed after it was read and has not invalidated. */
  lemma AtomicInvalidationAgrees(db: Value, run: seq<Step>, s: State)
    requires Reaches(Start(db), run, s) && s.entry.Some?
    requires s.entry.value.setAt == s.entry.value.checkedAt + 1
    requires forall w :: 0 <= w < |s.writers| ==> NotInvalidated(s.writers[w]) || InvalidatesAtOnce(s.writers[w])
    ensures s.entry.value.value == s.db
         || exists w :: 0 <= w < |s.writers| && s.entry.value.readAt < s.writers[w].committedAt && NotInvalidated(s.writers[w])
  {
    RunKeepsInv(Start(db), run, s);
    var e := s.entry.value;
    forall w | 0 <= w < |s.writers| && !NotInvalidated(s.writers[w])
      ensures s.writers[w].committedAt <= e.readAt
    {
      assert InvalidatesAtOnce(s.writers[w]) && UnbumpedAtCheck(s.writers[w], e.readAt, e.checkedAt);
    }
  }

  /** Whatever happens, a hit was filled less than one TTL ago. */
  lemma HitsAreRecent(db: Value, run: seq<Step>, s: State)
    requires Reaches(Start(db), run, s) && Cached(s).Some?
    ensures Cached(s).value.filledTime <= s.time < Cached(s).value.filledTime + 300
  {
    RunKeepsInv(Start(db), run, s);
  }

  /** In every run, 300 seconds on nothing that is cached now is a hit any more. */
  lemma NothingOutlivesItsLifetime(db: Value, run: seq<Step>, s: State)
    requires Reaches(Start(db), run, s)
    ensures Cached(Next(s, Pass(300))) == None
  {
    RunKeepsInv(Start(db), run, s);
  }

  /* When a value that is overwritten never comes back */

  /** Each commit of the run writes a value that the row has not held before. */
  ghost predicate WritesNewValues(run: seq<Step>, held: set<Value>)
    decreases |run|
  {
    run == [] ||
    match run[0]
    case Commit(value) => value !in held && WritesNewValues(run[1..], held + {value})
    case _ => WritesNewValues(run[1..], held)
  }

  function HeldAfter(step: Step, held: set<Value>): set<Value> {
    if step.Commit? then held + {step.value} else held
  }

  ghost predicate Overwritten(s: State, readAt: nat) {
    exists w :: 0 <= w < |s.writers| && readAt < s.writers[w].committedAt
  }

  /** A value that was read is one the row has held, and differs from the row once it is overwritten. */
  ghost predicate Remembered(s: State, held: set<Value>, value: Value, readAt: nat) {
    value in held && (Overwritten(s, readAt) ==> value != s.db)
  }

  ghost predicate RemembersReader(s: State, held: set<Value>, r: Reader) {
    match r
    case Loaded(_, value, readAt) => readAt < s.steps && Remembered(s, held, value, readAt)
    case Checked(value, readAt, _) => readAt < s.steps && Remembered(s, held, value, readAt)
    case _ => true
  }

  ghost predicate Remembers(s: State, held: set<Value>) {
    && s.db in held
    && (forall w :: 0 <= w < |s.writers| ==> s.writers[w].committedAt < s.steps)
    && (s.entry.Some? ==> s.entry.value.readAt < s.steps && Remembered(s, held, s.entry.value.value, s.entry.value.readAt))
    && (forall r :: r in s.readers ==> RemembersReader(s, held, s.readers[r]))
  }

  /** A step commits one more write, or none and leaves the row as it is. */
  lemma WhatCommits(s: State, step: Step, readAt: nat)
    requires Enabled(s, step) && readAt < s.steps
    ensures !step.Commit? ==> Next(s, step).db == s.db && (Overwritten(Next(s, step), readAt) ==> Overwritten(s, readAt))
    ensures step.Commit? ==> Next(s, step).db == step.value
  {
    var s' := Next(s, step);
    if !step.Commit? && Overwritten(s', readAt) {
      CommitAddsWriter(s, step);
      var w :| 0 <= w < |s'.writers| && readAt < s'.writers[w].committedAt;
      assert s.writers[w].committedAt == s'.writers[w].committedAt;
    }
  }

  lemma StaysRemembered(s: State, step: Step, held: set<Value>, value: Value, readAt: nat)
    requires Enabled(s, step) && readAt < s.steps && Remembered(s, held, value, readAt)
    requires step.Commit? ==> step.value !in held
    ensures Remembered(Next(s, step), HeldAfter(step, held), value, readAt)
  {
    WhatCommits(s, step, readAt);
  }

  lemma ReaderStaysRemembered(s: State, step: Step, held: set<Value>, r: nat)
    requires Remembers(s, held) && Enabled(s, step) && (step.Commit? ==> step.value !in held) && r in Next(s, step).readers
    ensures RemembersReader(Next(s, step), HeldAfter(step, held), Next(s, step).readers[r])
  {
    var s' := Next(s, step);
    if r in s.readers {
      assert RemembersReader(s, held, s.readers[r]);
      match s.readers[r]
      case Loaded(_, value, readAt) => StaysRemembered(s, step, held, value, readAt);
      case Checked(value, readAt, _) => StaysRemembered(s, step, held, value, readAt);
      case _ =>
    }
  }

  lemma StepRemembers(s: State, step: Step, held: set<Value>)
    requires Remembers(s, held) && Enabled(s, step) && (step.Commit? ==> step.value !in held)
    ensures Remembers(Next(s, step), HeldAfter(step, held))
  {
    var s', held' := Next(s, step), HeldAfter(step, held);
    CommitAddsWriter(s, step);
    forall w | 0 <= w < |s'.writers| ensures s'.writers[w].committedAt < s'.steps {
      if w < |s.writers| {
        assert s'.writers[w].committedAt == s.writers[w].committedAt;
      }
    }
    forall r | r in s'.readers ensures RemembersReader(s', held', s'.readers[r]) {
      ReaderStaysRemembered(s, step, held, r);
    }
    if s'.entry.Some? {
      if step.Fill? {
        assert RemembersReader(s, held, s.readers[step.r]);
      }
      var e := s'.entry.value;
      StaysRemembered(s, step, held, e.value, e.readAt);
    }
  }

  lemma {:induction false} RunRemembers(s: State, run: seq<Step>, s': State, held: set<Value>) returns (held': set<Value>)
    requires Remembers(s, held) && Reaches(s, run, s') && WritesNewValues(run, held)
    ensures Remembers(s', held')
    decreases |run|
  {
    if run == [] {
      held' := held;
    } else {
      StepRemembers(s, run[0], held);
      held' := RunRemembers(Next(s, run[0]), run[1..], s', HeldAfter(run[0], held));
    }
  }

  /** In every run that writes no value twice, the cached value differs from the row exactly when some
      writer that committed after it was read has not invalidated (yet) or was crossed by the fill; and
      once every writer is done, exactly when some such writer was crossed. */
  lemma StaleIffCrossed(db: Value, run: seq<Step>, s: State)
    requires Reaches(Start(db), run, s) && WritesNewValues(run, {db}) && s.entry.Some?
    ensures s.entry.value.value != s.db <==>
      exists w :: 0 <= w < |s.writers| && s.entry.value.readAt < s.writers[w].committedAt &&
                  (NotInvalidated(s.writers[w]) || Crosses(s.writers[w], s.entry.value))
    ensures (forall w :: 0 <= w < |s.writers| ==> !NotInvalidated(s.writers[w])) ==>
      (s.entry.value.value != s.db <==>
        exists w :: 0 <= w < |s.writers| && s.entry.value.readAt < s.writers[w].committedAt && Crosses(s.writers[w], s.entry.value))
  {
    var held := RunRemembers(Start(db), run, s, {db});
    if s.entry.value.value != s.db {
      StaleEntryExplained(db, run, s);
    }
  }

  /* A run in which the guard is crossed */

  lemma ReadBeforeCommit(stale: Value) returns (run: seq<Step>, s: State)
    ensures Reaches(Start(stale), run, s)
    ensures s == State(stale, None, None, map[0 := Loaded(None, stale, 2)], [], 3, 0)
  {
    run, s := Runs.Then(Try, Start(stale), [], Start(stale), Get(0));
    run, s := Runs.Then(Try, Start(stale), run, s, ReadVersion(0));
    run, s := Runs.Then(Try, Start(stale), run, s, Load(0));
  }

  /** The reader has read the old row when the writer commits and deletes. */
  lemma HalfInvalidated(stale: Value, latest: Value) returns (run: seq<Step>, s: State)
    ensures Reaches(Start(stale), run, s)
    ensures s == State(latest, None, None, map[0 := Loaded(None, stale, 2)], [Writer(3, Some(4), None, ToBump)], 5, 0)
  {
    run, s := ReadBeforeCommit(stale);
    run, s := Runs.Then(Try, Start(stale), run, s, Commit(latest));
    run, s := Runs.Then(Try, Start(stale), run, s, Delete(0, true));
  }

  lemma CrossedFill(stale: Value, latest: Value) returns (run: seq<Step>, s: State)
    ensures Reaches(Start(stale), run, s)
    ensures s == State(latest, Some(Entry(stale, 2, 5, 6, 0)), None, map[], [Writer(3, Some(4), None, ToBump)], 7, 0)
  {
    run, s := HalfInvalidated(stale, latest);
    run, s := Runs.Then(Try, Start(stale), run, s, Recheck(0));
    run, s := Runs.Then(Try, Start(stale), run, s, Fill(0));
    assert s.readers == map[];
  }

  /** With the steps as they are coded the guard can be crossed: a run after which the cache holds
      the old row although every writer is done and nothing failed. */
  lemma CrossedRunLeavesStaleEntry(stale: Value, latest: Value)
    requires stale != latest
    ensures exists run, s :: Reaches(Start(stale), run, s) && s.db == latest && Cached(s).Some? && Cached(s).value.value == stale
              && s.readers == map[] && |s.writers| == 1 && s.writers[0].stage.Finished? && !NotInvalidated(s.writers[0])
  {
    var run, s := CrossedFill(stale, latest);
    run, s := Runs.Then(Try, Start(stale), run, s, Bump(0, true));
    assert Reaches(Start(stale), run, s);
  }

  /* A run in which the invalidation fails */

  lemma Rechecked(value: Value) returns (run: seq<Step>, s: State)
    ensures Reaches(Start(value), run, s)
    ensures s == State(value, None, None, map[0 := Checked(value, 2, 3)], [], 4, 0)
  {
    run, s := ReadBeforeCommit(value);
    run, s := Runs.Then(Try, Start(value), run, s, Recheck(0));
  }

  lemma Filled(value: Value) returns (run: seq<Step>, s: State)
    ensures Reaches(Start(value), run, s)
    ensures s == State(value, Some(Entry(value, 2, 3, 4, 0)), None, map[], [], 5, 0)
  {
    run, s := Rechecked(value);
    run, s := Runs.Then(Try, Start(value), run, s, Fill(0));
    assert s.readers == map[];
  }

  lemma Unnoticed(stale: Value, latest: Value) returns (run: seq<Step>, s: State)
    ensures Reaches(Start(stale), run, s)
    ensures s == State(latest, Some(Entry(stale, 2, 3, 4, 0)), None, map[], [Writer(5, None, None, ToBump)], 7, 0)
  {
    run, s := Filled(stale);
    run, s := Runs.Then(Try, Start(stale), run, s, Commit(latest));
    run, s := Runs.Then(Try, Start(stale), run, s, Delete(0, false));
  }

  /** For any two values: a run in which both commands of the writer fail, after which it has finished and
      the cache holds the old row. */
  lemma FailedInvalidationLeavesStaleEntry(stale: Value, latest: Value)
    ensures exists run, s :: Reaches(Start(stale), run, s) && s.db == latest && Cached(s).Some? && Cached(s).value.value == stale
              && |s.writers| == 1 && s.writers[0].stage.Finished? && NotInvalidated(s.writers[0])
  {
    var run, s := Unnoticed(stale, latest);
    run, s := Runs.Then(Try, Start(stale), run, s, Bump(0, false));
    assert Reaches(Start(stale), run, s);
  }
}
