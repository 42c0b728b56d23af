/** The cached default User-Agent string over the cached stream settings, every command a step of its own.

    The settings cache is the transition system of SettingsCache.  A settings writer that is done there
    goes on to invalidate the string; a writer of User-Agent rows invalidates the string only.  All steps
    of a run are numbered together. */
module AgentCache {
  import opened Options
  import Runs
  import SettingsCache
  import DefaultUserAgent

  type Rows = map<int, string>

  /** Where a loader found the settings: in the row, or in an entry of the settings cache. */
  datatype Source =
    | FromRow(value: SettingsCache.Value, readAt: nat)
    | FromCache(entry: SettingsCache.Entry, at: nat)

  datatype Loader =
    | Missed
    | Versioned(ver: Option<nat>, verAt: nat)
    | SettingRead(ver: Option<nat>, verAt: nat, source: Source)
    | StringRead(ver: Option<nat>, verAt: nat, source: Source, agent: string, rowAt: nat)
    | Checked(verAt: nat, source: Source, agent: string, rowAt: nat, checkedAt: nat)

  datatype Entry = Entry(agent: string, verAt: nat, source: Source, rowAt: nat, checkedAt: nat, setAt: nat)

  /** Whose invalidation of the string: the w-th settings writer's, or a row writer's. */
  datatype Cause = BySettings(w: nat) | ByRows(w: nat)

  /** `since` is the step of the commit for a row writer, and for a settings writer that of turning to the
      string.  A missing step number after its stage means that the command failed. */
  datatype Invalidation = Invalidation(since: nat, deletedAt: Option<nat>, bumpedAt: Option<nat>, stage: SettingsCache.Stage)

  datatype State = State(
    group: SettingsCache.State,
    rows: Rows,
    agent: Option<Entry>,
    agentVer: Option<nat>,
    loaders: map<nat, Loader>,
    invalidations: map<Cause, Invalidation>)

  datatype Step =
    | Group(step: SettingsCache.Step)
    | Get(r: nat)
    | ReadVersion(r: nat)
    | SettingFromCache(r: nat)
    | SettingFromRow(r: nat)
    | ReadString(r: nat)
    | Recheck(r: nat)
    | Fill(r: nat)
    | Abandon(r: nat)
    | CommitRows(w: nat, rows: Rows)
    | TurnToAgent(w: nat)
    | Delete(cause: Cause, ok: bool)
    | Bump(cause: Cause, ok: bool)
    | Evict

  predicate Enabled(s: State, step: Step) {
    match step
    case Group(g) => SettingsCache.Enabled(s.group, g)
    case Get(r) => r !in s.loaders
    case ReadVersion(r) => r in s.loaders && s.loaders[r].Missed?
    case SettingFromCache(r) => r in s.loaders && s.loaders[r].Versioned? && SettingsCache.Cached(s.group).Some?
    case SettingFromRow(r) => r in s.loaders && s.loaders[r].Versioned?
    case ReadString(r) => r in s.loaders && s.loaders[r].SettingRead?
    case Recheck(r) => r in s.loaders && s.loaders[r].StringRead?
    case Fill(r) => r in s.loaders && s.loaders[r].Checked?
    case Abandon(r) => r in s.loaders
    case CommitRows(w, _) => ByRows(w) !in s.invalidations
    case TurnToAgent(w) => w < |s.group.writers| && s.group.writers[w].stage.Finished? && BySettings(w) !in s.invalidations
    case Delete(cause, _) => cause in s.invalidations && s.invalidations[cause].stage.ToDelete?
    case Bump(cause, _) => cause in s.invalidations && s.invalidations[cause].stage.ToBump?
    case Evict => true
  }

  function Found(source: Source): SettingsCache.Value {
    if source.FromRow? then source.value else source.entry.value
  }

  function Resolved(value: SettingsCache.Value, rows: Rows): string {
    DefaultUserAgent.Resolved(value.defaultAgent, rows)
  }

  /** What a step is to the settings cache: a step of it, or the mere passing of a number. */
  function GroupStep(step: Step): SettingsCache.Step {
    if step.Group? then step.step else SettingsCache.Pass(0)
  }

  function Effect(s: State, step: Step): State
    requires Enabled(s, step)
  {
    var now := s.group.steps;
    match step
    case Group(_) => s
    case Get(r) => if s.agent.Some? then s else s.(loaders := s.loaders[r := Missed])
    case ReadVersion(r) => s.(loaders := s.loaders[r := Versioned(s.agentVer, now)])
    case SettingFromCache(r) =>
      var me := s.loaders[r];
      s.(loaders := s.loaders[r := SettingRead(me.ver, me.verAt, FromCache(SettingsCache.Cached(s.group).value, now))])
    case SettingFromRow(r) =>
      var me := s.loaders[r];
      s.(loaders := s.loaders[r := SettingRead(me.ver, me.verAt, FromRow(s.group.db, now))])
    case ReadString(r) =>
      var me := s.loaders[r];
      s.(loaders := s.loaders[r := StringRead(me.ver, me.verAt, me.source, Resolved(Found(me.source), s.rows), now)])
    case Recheck(r) =>
      var me := s.loaders[r];
      s.(loaders := if s.agentVer == me.ver then s.loaders[r := Checked(me.verAt, me.source, me.agent, me.rowAt, now)]
                    else s.loaders - {r})
    case Fill(r) =>
      var me := s.loaders[r];
      s.(agent := Some(Entry(me.agent, me.verAt, me.source, me.rowAt, me.checkedAt, now)), loaders := s.loaders - {r})
    case Abandon(r) => s.(loaders := s.loaders - {r})
    case CommitRows(w, rows) =>
      s.(rows := rows, invalidations := s.invalidations[ByRows(w) := Invalidation(now, None, None, SettingsCache.ToDelete)])
    case TurnToAgent(w) =>
      s.(invalidations := s.invalidations[BySettings(w) := Invalidation(now, None, None, SettingsCache.ToDelete)])
    case Delete(cause, ok) =>
      var me := s.invalidations[cause];
      s.(agent := if ok then None else s.agent,
         invalidations := s.invalidations[cause := me.(deletedAt := if ok then Some(now) else None, stage := SettingsCache.ToBump)])
    case Bump(cause, ok) =>
      var me := s.invalidations[cause];
      s.(agentVer := if ok then Some(now) else s.agentVer,
         invalidations := s.invalidations[cause := me.(bumpedAt := if ok then Some(now) else None, stage := SettingsCache.Finished)])
    case Evict => s.(agent := None)
  }

  function Next(s: State, step: Step): State
    requires Enabled(s, step)
  {
    Effect(s, step).(group := SettingsCache.Next(s.group, GroupStep(step)))
  }

  function Start(value: SettingsCache.Value, rows: Rows): State {
    State(SettingsCache.Start(value), rows, None, None, map[], map[])
  }

  function Try(s: State, step: Step): Option<State> {
    if Enabled(s, step) then Some(Next(s, step)) else None
  }

  ghost predicate Reaches(s: State, run: seq<Step>, s': State) {
    Runs.Reaches(Try, s, run, s')
  }

  /* The invariant */

  ghost predicate SaneInvalidation(s: State, cause: Cause, i: Invalidation) {
    && SaneTimes(s.group.steps, s.agentVer, i)
    && (cause.BySettings? ==> cause.w < |s.group.writers| && DoneBefore(s.group.writers[cause.w], i.since))
  }

  predicate SaneTimes(steps: nat, ver: Option<nat>, i: Invalidation) {
    && i.since < steps
    && (i.deletedAt.Some? ==> i.since < i.deletedAt.value < steps && !i.stage.ToDelete?)
    && (i.bumpedAt.Some? ==> i.since < i.bumpedAt.value < steps && i.stage.Finished?)
    && (i.bumpedAt.Some? ==> ver.Some? && i.bumpedAt.value <= ver.value)
    && (i.deletedAt.Some? && i.bumpedAt.Some? ==> i.deletedAt.value < i.bumpedAt.value)
  }

  /** The settings writer had done with the settings cache. */
  predicate DoneBefore(w: SettingsCache.Writer, step: nat) {
    && w.stage.Finished? && w.committedAt < step
    && (w.deletedAt.Some? ==> w.deletedAt.value < step) && (w.bumpedAt.Some? ==> w.bumpedAt.value < step)
  }

  /** The settings were found after `verAt`, and are current unless a later commit is known; an entry of
      the settings cache was at that time not deleted since it was filled. */
  ghost predicate SaneSource(s: State, verAt: nat, source: Source) {
    match source
    case FromRow(value, readAt) =>
      verAt < readAt < s.group.steps && SettingsCache.CurrentUnlessCommitted(s.group, value, readAt)
    case FromCache(e, at) =>
      && verAt < at < s.group.steps && e.readAt < s.group.steps && e.checkedAt < s.group.steps && e.setAt < at
      && SettingsCache.CurrentUnlessCommitted(s.group, e.value, e.readAt)
      && forall w :: 0 <= w < |s.group.writers| ==> NotDeletedSince(s.group.writers[w], e, at)
  }

  predicate NotDeletedSince(w: SettingsCache.Writer, e: SettingsCache.Entry, at: nat) {
    && (e.readAt < w.committedAt && w.bumpedAt.Some? ==> e.checkedAt < w.bumpedAt.value)
    && w.deletedAt != Some(e.checkedAt)
    && (w.deletedAt.Some? && w.deletedAt.value < at ==> w.deletedAt.value < e.setAt)
  }

  ghost predicate RowsOverwritten(s: State, rowAt: nat) {
    exists w :: ByRows(w) in s.invalidations && rowAt < s.invalidations[ByRows(w)].since
  }

  ghost predicate SaneString(s: State, verAt: nat, source: Source, agent: string, rowAt: nat) {
    && SaneSource(s, verAt, source) && verAt < rowAt < s.group.steps
    && (agent == Resolved(Found(source), s.rows) || RowsOverwritten(s, rowAt))
  }

  /** Nobody bumped the version of the string between the two reads of it. */
  ghost predicate Unbumped(s: State, verAt: nat, checkedAt: nat) {
    forall c :: c in s.invalidations && s.invalidations[c].bumpedAt.Some? ==>
      s.invalidations[c].bumpedAt.value < verAt || checkedAt < s.invalidations[c].bumpedAt.value
  }

  ghost predicate SaneLoader(s: State, l: Loader) {
    match l
    case Missed => true
    case Versioned(ver, verAt) => verAt < s.group.steps && (ver.Some? ==> ver.value < verAt)
    case SettingRead(ver, verAt, source) => (ver.Some? ==> ver.value < verAt) && SaneSource(s, verAt, source)
    case StringRead(ver, verAt, source, agent, rowAt) =>
      (ver.Some? ==> ver.value < verAt) && SaneString(s, verAt, source, agent, rowAt)
    case Checked(verAt, source, agent, rowAt, checkedAt) =>
      SaneString(s, verAt, source, agent, rowAt) && checkedAt < s.group.steps && Unbumped(s, verAt, checkedAt)
  }

  ghost predicate SaneEntry(s: State, e: Entry) {
    && SaneString(s, e.verAt, e.source, e.agent, e.rowAt) && e.setAt < s.group.steps
    && e.checkedAt < s.group.steps && Unbumped(s, e.verAt, e.checkedAt)
    && forall c :: c in s.invalidations && s.invalidations[c].deletedAt.Some? ==> s.invalidations[c].deletedAt.value < e.setAt
  }

  ghost predicate Inv(s: State) {
    && SettingsCache.Inv(s.group)
    && (s.agentVer.Some? ==> s.agentVer.value < s.group.steps)
    && (forall c :: c in s.invalidations ==> SaneInvalidation(s, c, s.invalidations[c]))
    && (forall r :: r in s.loaders ==> SaneLoader(s, s.loaders[r]))
    && (s.agent.Some? ==> SaneEntry(s, s.agent.value))
  }

  /* Every step keeps it */

  lemma GroupMovesOn(s: State, step: Step)
    requires Inv(s) && Enabled(s, step)
    ensures SettingsCache.Enabled(s.group, GroupStep(step))
    ensures Next(s, step).group == SettingsCache.Next(s.group, GroupStep(step))
    ensures SettingsCache.Inv(Next(s, step).group) && Next(s, step).group.steps == s.group.steps + 1
  {
    SettingsCache.StepKeepsInv(s.group, GroupStep(step));
  }

  /** A writer of the settings keeps what it has done, and adds only steps that are new. */
  lemma WriterMovesOn(g: SettingsCache.State, step: SettingsCache.Step, w: nat)
    requires SettingsCache.Enabled(g, step) && w < |g.writers|
    ensures w < |SettingsCache.Next(g, step).writers|
    ensures var me, me' := g.writers[w], SettingsCache.Next(g, step).writers[w];
      && me'.committedAt == me.committedAt && (me.stage.Finished? ==> me' == me)
      && (me'.deletedAt == me.deletedAt || me'.deletedAt == Some(g.steps))
      && (me'.bumpedAt == me.bumpedAt || me'.bumpedAt == Some(g.steps))
  {
  }

  lemma SourceStaysSane(s: State, step: Step, verAt: nat, source: Source)
    requires Inv(s) && Enabled(s, step) && SaneSource(s, verAt, source)
    ensures SaneSource(Next(s, step), verAt, source)
  {
    var s', g := Next(s, step), GroupStep(step);
    match source
    case FromRow(value, readAt) => SettingsCache.CommittedStays(s.group, g, value, readAt);
    case FromCache(e, at) =>
      SettingsCache.CommittedStays(s.group, g, e.value, e.readAt);
      SettingsCache.CommitAddsWriter(s.group, g);
      forall w | 0 <= w < |s'.group.writers| ensures NotDeletedSince(s'.group.writers[w], e, at) {
        if w < |s.group.writers| {
          WriterMovesOn(s.group, g, w);
        }
      }
  }

  /** An invalidation keeps what it has done, and adds only steps that are new. */
  lemma InvalidationMovesOn(s: State, step: Step, c: Cause)
    requires Enabled(s, step) && c in Next(s, step).invalidations
    ensures var i' := Next(s, step).invalidations[c];
      if c in s.invalidations then
        var i := s.invalidations[c];
        && i'.since == i.since
        && (i'.deletedAt == i.deletedAt || i'.deletedAt == Some(s.group.steps) || i'.deletedAt == None)
        && (i'.bumpedAt == i.bumpedAt || i'.bumpedAt == Some(s.group.steps) || i'.bumpedAt == None)
      else i' == Invalidation(s.group.steps, None, None, SettingsCache.ToDelete)
  {
  }

  lemma RowsStay(s: State, step: Step, rowAt: nat)
    requires Enabled(s, step) && rowAt < s.group.steps
    ensures RowsOverwritten(Next(s, step), rowAt) || (!RowsOverwritten(s, rowAt) && Next(s, step).rows == s.rows)
  {
    var s' := Next(s, step);
    if RowsOverwritten(s, rowAt) {
      var w :| ByRows(w) in s.invalidations && rowAt < s.invalidations[ByRows(w)].since;
      assert ByRows(w) in s'.invalidations && s'.invalidations[ByRows(w)].since == s.invalidations[ByRows(w)].since;
    }
    if step.CommitRows? {
      assert ByRows(step.w) in s'.invalidations && rowAt < s'.invalidations[ByRows(step.w)].since;
    }
  }

  lemma StringStaysSane(s: State, step: Step, verAt: nat, source: Source, agent: string, rowAt: nat)
    requires Inv(s) && Enabled(s, step) && SaneString(s, verAt, source, agent, rowAt)
    ensures SaneString(Next(s, step), verAt, source, agent, rowAt)
  {
    SourceStaysSane(s, step, verAt, source);
    RowsStay(s, step, rowAt);
  }

  lemma UnbumpedStays(s: State, step: Step, verAt: nat, checkedAt: nat)
    requires Enabled(s, step) && Unbumped(s, verAt, checkedAt) && checkedAt < s.group.steps
    ensures Unbumped(Next(s, step), verAt, checkedAt)
  {
    forall c | c in Next(s, step).invalidations && Next(s, step).invalidations[c].bumpedAt.Some?
      ensures Next(s, step).invalidations[c].bumpedAt.value < verAt || checkedAt < Next(s, step).invalidations[c].bumpedAt.value
    {
      InvalidationMovesOn(s, step, c);
    }
  }

  lemma LoaderStaysSane(s: State, step: Step, l: Loader)
    requires Inv(s) && Enabled(s, step) && SaneLoader(s, l)
    ensures SaneLoader(Next(s, step), l)
  {
    match l
    case Missed =>
    case Versioned(_, _) =>
    case SettingRead(_, verAt, source) => SourceStaysSane(s, step, verAt, source);
    case StringRead(_, verAt, source, agent, rowAt) => StringStaysSane(s, step, verAt, source, agent, rowAt);
    case Checked(verAt, source, agent, rowAt, checkedAt) =>
      StringStaysSane(s, step, verAt, source, agent, rowAt);
      UnbumpedStays(s, step, verAt, checkedAt);
  }

  /** What a loader finds in the settings cache is an entry no finished delete came after. */
  lemma CachedIsSane(s: State, r: nat)
    requires Inv(s) && Enabled(s, SettingFromCache(r))
    ensures var s' := Next(s, SettingFromCache(r)); SaneLoader(s', s'.loaders[r])
  {
    var s', e := Next(s, SettingFromCache(r)), s.group.entry.value;
    assert SaneLoader(s, s.loaders[r]);
    SettingsCache.CommittedStays(s.group, SettingsCache.Pass(0), e.value, e.readAt);
    forall w | 0 <= w < |s'.group.writers| ensures NotDeletedSince(s'.group.writers[w], e, s.group.steps) {
      assert SettingsCache.UnbumpedAtCheck(s.group.writers[w], e.readAt, e.checkedAt);
    }
  }

  lemma RecheckedIsSane(s: State, r: nat)
    requires Inv(s) && Enabled(s, Recheck(r)) && s.agentVer == s.loaders[r].ver
    ensures var s' := Next(s, Recheck(r)); SaneLoader(s', s'.loaders[r])
  {
    var s', me := Next(s, Recheck(r)), s.loaders[r];
    assert SaneLoader(s, me);
    StringStaysSane(s, Recheck(r), me.verAt, me.source, me.agent, me.rowAt);
    forall c | c in s'.invalidations && s'.invalidations[c].bumpedAt.Some?
      ensures s'.invalidations[c].bumpedAt.value < me.verAt
    {
      assert SaneInvalidation(s, c, s.invalidations[c]);
    }
  }

  lemma MoverStaysSane(s: State, step: Step, r: nat)
    requires Inv(s) && Enabled(s, step) && r in Next(s, step).loaders
    requires r !in s.loaders || Next(s, step).loaders[r] != s.loaders[r]
    ensures SaneLoader(Next(s, step), Next(s, step).loaders[r])
  {
    match step {
      case SettingFromCache(_) => CachedIsSane(s, r);
      case Recheck(_) => RecheckedIsSane(s, r);
      case SettingFromRow(_) =>
        assert SaneLoader(s, s.loaders[r]);
      case ReadString(_) =>
        var me := s.loaders[r];
        assert SaneLoader(s, me);
        SourceStaysSane(s, step, me.verAt, me.source);
      case _ =>
    }
  }

  lemma InvalidationStaysSane(s: State, step: Step, c: Cause)
    requires Inv(s) && Enabled(s, step) && c in Next(s, step).invalidations
    ensures SaneInvalidation(Next(s, step), c, Next(s, step).invalidations[c])
  {
    if c in s.invalidations {
      OldInvalidationStaysSane(s, step, c);
    } else {
      InvalidationMovesOn(s, step, c);
      if c.BySettings? {
        assert SettingsCache.SaneWriter(s.group, s.group.writers[c.w]);
      }
    }
  }

  lemma OldInvalidationStaysSane(s: State, step: Step, c: Cause)
    requires Inv(s) && Enabled(s, step) && c in s.invalidations
    ensures c in Next(s, step).invalidations && SaneInvalidation(Next(s, step), c, Next(s, step).invalidations[c])
  {
    assert SaneInvalidation(s, c, s.invalidations[c]);
    InvalidationAfter(s, step, c);
    TimesStaySane(s, step, c);
    GroupMovesOn(s, step);
    if c.BySettings? {
      CauseStaysDone(s, step, c);
    }
  }

  lemma TimesStaySane(s: State, step: Step, c: Cause)
    requires Enabled(s, step) && c in s.invalidations && SaneTimes(s.group.steps, s.agentVer, s.invalidations[c])
    requires s.agentVer.Some? ==> s.agentVer.value < s.group.steps
    ensures SaneTimes(s.group.steps + 1, Next(s, step).agentVer, Next(s, step).invalidations[c])
  {
    InvalidationAfter(s, step, c);
    VersionAfter(s, step, c);
  }

  /** An invalidation changes only by its own commands. */
  lemma InvalidationAfter(s: State, step: Step, c: Cause)
    requires Enabled(s, step) && c in s.invalidations
    ensures c in Next(s, step).invalidations
    ensures var i, i' := s.invalidations[c], Next(s, step).invalidations[c];
      i' == if step.Delete? && step.cause == c then i.(deletedAt := if step.ok then Some(s.group.steps) else None, stage := SettingsCache.ToBump)
            else if step.Bump? && step.cause == c then i.(bumpedAt := if step.ok then Some(s.group.steps) else None, stage := SettingsCache.Finished)
            else i
  {
  }

  /** The version never falls behind a bump. */
  lemma VersionAfter(s: State, step: Step, c: Cause)
    requires Enabled(s, step) && (s.agentVer.Some? ==> s.agentVer.value < s.group.steps)
    ensures s.agentVer.Some? ==> Next(s, step).agentVer.Some? && s.agentVer.value <= Next(s, step).agentVer.value
    ensures step.Bump? && step.ok ==> Next(s, step).agentVer == Some(s.group.steps)
  {
  }

  lemma CauseStaysDone(s: State, step: Step, c: Cause)
    requires Inv(s) && Enabled(s, step) && c in s.invalidations && c.BySettings?
    requires SaneInvalidation(s, c, s.invalidations[c])
    ensures c.w < |Next(s, step).group.writers| && DoneBefore(Next(s, step).group.writers[c.w], s.invalidations[c].since)
  {
    GroupMovesOn(s, step);
    WriterMovesOn(s.group, GroupStep(step), c.w);
  }

  lemma EntryStaysSane(s: State, step: Step)
    requires Inv(s) && Enabled(s, step) && Next(s, step).agent.Some?
    ensures SaneEntry(Next(s, step), Next(s, step).agent.value)
  {
    var s' := Next(s, step);
    var e := s'.agent.value;
    if step.Fill? {
      assert SaneLoader(s, s.loaders[step.r]);
    }
    StringStaysSane(s, step, e.verAt, e.source, e.agent, e.rowAt);
    UnbumpedStays(s, step, e.verAt, e.checkedAt);
    forall c | c in s'.invalidations && s'.invalidations[c].deletedAt.Some?
      ensures s'.invalidations[c].deletedAt.value < e.setAt
    {
      assert SaneInvalidation(s, c, s.invalidations[c]);
    }
  }

  lemma StepKeepsInv(s: State, step: Step)
    requires Inv(s) && Enabled(s, step)
    ensures Inv(Next(s, step))
  {
    var s' := Next(s, step);
    GroupMovesOn(s, step);
    forall c | c in s'.invalidations ensures SaneInvalidation(s', c, s'.invalidations[c]) {
      InvalidationStaysSane(s, step, c);
    }
    forall r | r in s'.loaders ensures SaneLoader(s', s'.loaders[r]) {
      if r in s.loaders && s'.loaders[r] == s.loaders[r] {
        LoaderStaysSane(s, step, s.loaders[r]);
      } else {
        MoverStaysSane(s, step, r);
      }
    }
    if s'.agent.Some? {
      EntryStaysSane(s, step);
    }
  }

  lemma RunKeepsInv(s: State, run: seq<Step>, s': State)
    requires Inv(s) && Reaches(s, run, s')
    ensures Inv(s')
  {
    forall x, step | Inv(x) && Try(x, step).Some? ensures Inv(Try(x, step).value) {
      StepKeepsInv(x, step);
    }
    Runs.RunKeeps(Try, Inv, s, run, s');
  }

  /* What a stale string means */

  function SettingReadAt(source: Source): nat {
    if source.FromRow? then source.readAt else source.entry.readAt
  }

  /** The w-th settings writer committed after the settings in the entry were read from the row. */
  predicate OutdatesSettings(s: State, w: nat, e: Entry) {
    w < |s.group.writers| && SettingReadAt(e.source) < s.group.writers[w].committedAt
  }

  predicate OutdatesRows(s: State, w: nat, e: Entry) {
    ByRows(w) in s.invalidations && e.rowAt < s.invalidations[ByRows(w)].since
  }

  /** Some commit outdates the string. */
  ghost predicate Outdated(s: State, e: Entry) {
    (exists w: nat :: OutdatesSettings(s, w, e)) || (exists w: nat :: OutdatesRows(s, w, e))
  }

  /** The string has been invalidated for this cause: both commands are done and succeeded. */
  predicate Invalidated(s: State, c: Cause) {
    c in s.invalidations && s.invalidations[c].deletedAt.Some? && s.invalidations[c].bumpedAt.Some?
  }

  /** The loader rechecked before this bump and filled after this delete. */
  predicate CrossesAgent(s: State, c: Cause, e: Entry) {
    Invalidated(s, c) && s.invalidations[c].deletedAt.value < e.setAt && e.checkedAt < s.invalidations[c].bumpedAt.value
  }

  /** The settings came from an entry whose own fill was crossed by this settings writer. */
  predicate CrossesGroup(s: State, w: nat, e: Entry) {
    w < |s.group.writers| && e.source.FromCache? && SettingsCache.Crosses(s.group.writers[w], e.source.entry)
  }

  lemma SettingsCrossed(s: State, w: nat)
    requires Inv(s) && s.agent.Some? && OutdatesSettings(s, w, s.agent.value)
    requires !SettingsCache.NotInvalidated(s.group.writers[w]) && Invalidated(s, BySettings(w))
    ensures CrossesAgent(s, BySettings(w), s.agent.value) || CrossesGroup(s, w, s.agent.value)
  {
    var e, i := s.agent.value, s.invalidations[BySettings(w)];
    assert SaneInvalidation(s, BySettings(w), i);
    assert SettingsCache.SaneWriter(s.group, s.group.writers[w]);
    if i.bumpedAt.value < e.verAt && e.source.FromCache? {
      assert NotDeletedSince(s.group.writers[w], e.source.entry, e.source.at);
    }
  }

  lemma RowsCrossed(s: State, w: nat)
    requires Inv(s) && s.agent.Some? && OutdatesRows(s, w, s.agent.value) && Invalidated(s, ByRows(w))
    ensures CrossesAgent(s, ByRows(w), s.agent.value)
  {
    assert SaneInvalidation(s, ByRows(w), s.invalidations[ByRows(w)]);
  }

  /** In every interleaving: a cached string that is not the one the committed settings and rows stand for
      was outdated by some commit; and each commit that outdates it belongs to a writer that has an
      invalidation missing, or was crossed by the fill of the string, or by the fill of the settings entry
      the string was loaded from. */
  lemma StaleAgentExplained(value: SettingsCache.Value, rows: Rows, run: seq<Step>, s: State)
    requires Reaches(Start(value, rows), run, s) && s.agent.Some?
    requires s.agent.value.agent != Resolved(s.group.db, s.rows)
    ensures Outdated(s, s.agent.value)
    ensures forall w: nat :: OutdatesSettings(s, w, s.agent.value) ==>
      SettingsCache.NotInvalidated(s.group.writers[w]) || !Invalidated(s, BySettings(w)) ||
      CrossesAgent(s, BySettings(w), s.agent.value) || CrossesGroup(s, w, s.agent.value)
    ensures forall w: nat :: OutdatesRows(s, w, s.agent.value) ==> !Invalidated(s, ByRows(w)) || CrossesAgent(s, ByRows(w), s.agent.value)
  {
    RunKeepsInv(Start(value, rows), run, s);
    var e := s.agent.value;
    if Found(e.source) != s.group.db {
      var w :| 0 <= w < |s.group.writers| && SettingReadAt(e.source) < s.group.writers[w].committedAt;
      assert OutdatesSettings(s, w, e);
    } else {
      var w :| ByRows(w) in s.invalidations && e.rowAt < s.invalidations[ByRows(w)].since;
      assert OutdatesRows(s, w, e);
    }
    forall w: nat | OutdatesSettings(s, w, e) && !SettingsCache.NotInvalidated(s.group.writers[w]) && Invalidated(s, BySettings(w))
      ensures CrossesAgent(s, BySettings(w), e) || CrossesGroup(s, w, e)
    {
      SettingsCrossed(s, w);
    }
    forall w: nat | OutdatesRows(s, w, e) && Invalidated(s, ByRows(w)) ensures CrossesAgent(s, ByRows(w), e) {
      RowsCrossed(s, w);
    }
  }

  /** A cached string that no commit outdates is the configured row's, or else the fallback. */
  lemma ConfiguredAgentIsUsed(value: SettingsCache.Value, rows: Rows, run: seq<Step>, s: State)
    requires Reaches(Start(value, rows), run, s) && s.agent.Some? && !Outdated(s, s.agent.value)
    ensures match s.group.db.defaultAgent
      case Unset => s.agent.value.agent == "Dispatcharr/0.29.0"
      case Invalid => s.agent.value.agent == "Dispatcharr/0.29.0"
      case Id(i) =>
        if i !in s.rows then s.agent.value.agent == "Dispatcharr/0.29.0"
        else s.agent.value.agent == if |s.rows[i]| > 0 then s.rows[i] else "Dispatcharr/0.29.0"
  {
    if s.agent.value.agent != Resolved(s.group.db, s.rows) {
      StaleAgentExplained(value, rows, run, s);
    }
  }

  /** In every run: settings that a loader takes from the settings cache were put there less than 300 seconds
      before. */
  lemma SettingsFoundAreRecent(value: SettingsCache.Value, rows: Rows, run: seq<Step>, s: State, r: nat)
    requires Reaches(Start(value, rows), run, s) && Enabled(s, SettingFromCache(r))
    ensures var source := Next(s, SettingFromCache(r)).loaders[r].source;
      source.FromCache? && source.entry.filledTime <= s.group.time < source.entry.filledTime + 300
  {
    RunKeepsInv(Start(value, rows), run, s);
  }

  /** What a step of a loader puts into the cache: the string of the row its settings name, as it was when
      the loader read that row, or else the fallback. */
  lemma FilledAgentIsRead(s: State, r: nat)
    requires Enabled(s, ReadString(r))
    ensures var me := Next(s, ReadString(r)).loaders[r];
      match Found(me.source).defaultAgent
      case Unset => me.agent == "Dispatcharr/0.29.0"
      case Invalid => me.agent == "Dispatcharr/0.29.0"
      case Id(i) =>
        if i !in s.rows then me.agent == "Dispatcharr/0.29.0"
        else me.agent == if |s.rows[i]| > 0 then s.rows[i] else "Dispatcharr/0.29.0"
  {
  }

  /* When nothing that is overwritten comes back */

  /** The step commits no settings and no rows that were there before. */
  predicate New(step: Step, values: set<SettingsCache.Value>, tables: set<Rows>) {
    && (GroupStep(step).Commit? ==> GroupStep(step).value !in values)
    && (step.CommitRows? ==> step.rows !in tables)
  }

  function ValuesAfter(step: Step, values: set<SettingsCache.Value>): set<SettingsCache.Value> {
    SettingsCache.HeldAfter(GroupStep(step), values)
  }

  function TablesAfter(step: Step, tables: set<Rows>): set<Rows> {
    if step.CommitRows? then tables + {step.rows} else tables
  }

  /** Each commit of the run writes settings or rows that were not there before. */
  ghost predicate WritesNew(run: seq<Step>, values: set<SettingsCache.Value>, tables: set<Rows>)
    decreases |run|
  {
    run == [] || (New(run[0], values, tables) && WritesNew(run[1..], ValuesAfter(run[0], values), TablesAfter(run[0], tables)))
  }

  /** All settings that are there at some point of the run. */
  function ValuesOf(run: seq<Step>, values: set<SettingsCache.Value>): set<SettingsCache.Value>
    decreases |run|
  {
    if run == [] then values else ValuesOf(run[1..], ValuesAfter(run[0], values))
  }

  function TablesOf(run: seq<Step>, tables: set<Rows>): set<Rows>
    decreases |run|
  {
    if run == [] then tables else TablesOf(run[1..], TablesAfter(run[0], tables))
  }

  /** No other settings with no other rows stand for the string that the committed ones stand for. */
  ghost predicate StandsOut(s: State, values: set<SettingsCache.Value>, tables: set<Rows>) {
    forall v, t :: v in values && t in tables && Resolved(v, t) == Resolved(s.group.db, s.rows) ==> v == s.group.db && t == s.rows
  }

  /** The settings found were there once, and are not the committed ones if overwritten since. */
  ghost predicate RemembersSource(s: State, values: set<SettingsCache.Value>, source: Source) {
    SettingReadAt(source) < s.group.steps && SettingsCache.Remembered(s.group, values, Found(source), SettingReadAt(source))
  }

  ghost predicate RemembersTable(s: State, tables: set<Rows>, t: Rows, rowAt: nat) {
    rowAt < s.group.steps && t in tables && (RowsOverwritten(s, rowAt) ==> t != s.rows)
  }

  ghost predicate RemembersString(s: State, values: set<SettingsCache.Value>, tables: set<Rows>, source: Source, agent: string, rowAt: nat) {
    && RemembersSource(s, values, source)
    && exists t :: RemembersTable(s, tables, t, rowAt) && agent == Resolved(Found(source), t)
  }

  ghost predicate RemembersLoader(s: State, values: set<SettingsCache.Value>, tables: set<Rows>, l: Loader) {
    match l
    case SettingRead(_, _, source) => RemembersSource(s, values, source)
    case StringRead(_, _, source, agent, rowAt) => RemembersString(s, values, tables, source, agent, rowAt)
    case Checked(_, source, agent, rowAt, _) => RemembersString(s, values, tables, source, agent, rowAt)
    case _ => true
  }

  ghost predicate Remembers(s: State, values: set<SettingsCache.Value>, tables: set<Rows>) {
    && SettingsCache.Remembers(s.group, values) && s.rows in tables
    && (forall c :: c in s.invalidations ==> s.invalidations[c].since < s.group.steps)
    && (forall r :: r in s.loaders ==> RemembersLoader(s, values, tables, s.loaders[r]))
    && (s.agent.Some? ==> RemembersString(s, values, tables, s.agent.value.source, s.agent.value.agent, s.agent.value.rowAt))
  }

  lemma SourceStaysRemembered(s: State, step: Step, values: set<SettingsCache.Value>, source: Source)
    requires Enabled(s, step) && SettingsCache.Enabled(s.group, GroupStep(step))
    requires (GroupStep(step).Commit? ==> GroupStep(step).value !in values) && RemembersSource(s, values, source)
    ensures RemembersSource(Next(s, step), ValuesAfter(step, values), source)
  {
    SettingsCache.StaysRemembered(s.group, GroupStep(step), values, Found(source), SettingReadAt(source));
  }

  lemma TableStaysRemembered(s: State, step: Step, tables: set<Rows>, t: Rows, rowAt: nat)
    requires Enabled(s, step) && (step.CommitRows? ==> step.rows !in tables) && RemembersTable(s, tables, t, rowAt)
    ensures RemembersTable(Next(s, step), TablesAfter(step, tables), t, rowAt)
  {
    var s' := Next(s, step);
    if !step.CommitRows? && RowsOverwritten(s', rowAt) {
      var w :| ByRows(w) in s'.invalidations && rowAt < s'.invalidations[ByRows(w)].since;
      InvalidationMovesOn(s, step, ByRows(w));
    }
  }

  lemma StringStaysRemembered(s: State, step: Step, values: set<SettingsCache.Value>, tables: set<Rows>, source: Source, agent: string, rowAt: nat)
    requires Enabled(s, step) && SettingsCache.Enabled(s.group, GroupStep(step)) && New(step, values, tables)
    requires RemembersString(s, values, tables, source, agent, rowAt)
    ensures RemembersString(Next(s, step), ValuesAfter(step, values), TablesAfter(step, tables), source, agent, rowAt)
  {
    SourceStaysRemembered(s, step, values, source);
    var t :| RemembersTable(s, tables, t, rowAt) && agent == Resolved(Found(source), t);
    TableStaysRemembered(s, step, tables, t, rowAt);
  }

  lemma LoaderStaysRemembered(s: State, step: Step, values: set<SettingsCache.Value>, tables: set<Rows>, l: Loader)
    requires Enabled(s, step) && SettingsCache.Enabled(s.group, GroupStep(step)) && New(step, values, tables)
    requires RemembersLoader(s, values, tables, l)
    ensures RemembersLoader(Next(s, step), ValuesAfter(step, values), TablesAfter(step, tables), l)
  {
    match l
    case SettingRead(_, _, source) => SourceStaysRemembered(s, step, values, source);
    case StringRead(_, _, source, agent, rowAt) => StringStaysRemembered(s, step, values, tables, source, agent, rowAt);
    case Checked(_, source, agent, rowAt, _) => StringStaysRemembered(s, step, values, tables, source, agent, rowAt);
    case _ =>
  }

  /** What is read now is what is committed now. */
  lemma NothingOverwrittenYet(s: State, step: Step, values: set<SettingsCache.Value>, tables: set<Rows>)
    requires Remembers(s, values, tables) && Enabled(s, step) && !step.Group? && !step.CommitRows? && !step.TurnToAgent?
    ensures RemembersTable(Next(s, step), tables, s.rows, s.group.steps)
    ensures SettingsCache.Remembered(Next(s, step).group, values, s.group.db, s.group.steps)
  {
    var s' := Next(s, step);
    if RowsOverwritten(s', s.group.steps) {
      var w :| ByRows(w) in s'.invalidations && s.group.steps < s'.invalidations[ByRows(w)].since;
      InvalidationMovesOn(s, step, ByRows(w));
    }
  }

  lemma MoverRemembers(s: State, step: Step, values: set<SettingsCache.Value>, tables: set<Rows>, r: nat)
    requires Remembers(s, values, tables) && Enabled(s, step) && r in Next(s, step).loaders
    requires r !in s.loaders || Next(s, step).loaders[r] != s.loaders[r]
    ensures RemembersLoader(Next(s, step), values, tables, Next(s, step).loaders[r])
  {
    match step {
      case SettingFromCache(_) =>
        var e := s.group.entry.value;
        SettingsCache.StaysRemembered(s.group, SettingsCache.Pass(0), values, e.value, e.readAt);
      case SettingFromRow(_) => NothingOverwrittenYet(s, step, values, tables);
      case ReadString(_) =>
        NothingOverwrittenYet(s, step, values, tables);
        assert RemembersLoader(s, values, tables, s.loaders[r]);
        SourceStaysRemembered(s, step, values, s.loaders[r].source);
      case Recheck(_) =>
        var me := s.loaders[r];
        assert RemembersLoader(s, values, tables, me);
        StringStaysRemembered(s, step, values, tables, me.source, me.agent, me.rowAt);
      case _ =>
    }
  }

  lemma StepRemembers(s: State, step: Step, values: set<SettingsCache.Value>, tables: set<Rows>)
    requires Remembers(s, values, tables) && Enabled(s, step) && New(step, values, tables)
    ensures Remembers(Next(s, step), ValuesAfter(step, values), TablesAfter(step, tables))
  {
    var s', values', tables' := Next(s, step), ValuesAfter(step, values), TablesAfter(step, tables);
    SettingsCache.StepRemembers(s.group, GroupStep(step), values);
    forall c | c in s'.invalidations ensures s'.invalidations[c].since < s'.group.steps {
      InvalidationMovesOn(s, step, c);
    }
    forall r | r in s'.loaders ensures RemembersLoader(s', values', tables', s'.loaders[r]) {
      if r in s.loaders && s'.loaders[r] == s.loaders[r] {
        LoaderStaysRemembered(s, step, values, tables, s.loaders[r]);
      } else {
        MoverRemembers(s, step, values, tables, r);
      }
    }
    if s'.agent.Some? {
      if step.Fill? {
        assert RemembersLoader(s, values, tables, s.loaders[step.r]);
      }
      var e := s'.agent.value;
      StringStaysRemembered(s, step, values, tables, e.source, e.agent, e.rowAt);
    }
  }

  lemma {:induction false} RunRemembers(s: State, run: seq<Step>, s': State, values: set<SettingsCache.Value>, tables: set<Rows>)
    requires Remembers(s, values, tables) && Reaches(s, run, s') && WritesNew(run, values, tables)
    ensures Remembers(s', ValuesOf(run, values), TablesOf(run, tables))
    decreases |run|
  {
    if run != [] {
      StepRemembers(s, run[0], values, tables);
      RunRemembers(Next(s, run[0]), run[1..], s', ValuesAfter(run[0], values), TablesAfter(run[0], tables));
    }
  }

  lemma OutdatedMeansStale(value: SettingsCache.Value, rows: Rows, run: seq<Step>, s: State)
    requires Reaches(Start(value, rows), run, s) && s.agent.Some? && WritesNew(run, {value}, {rows})
    requires StandsOut(s, ValuesOf(run, {value}), TablesOf(run, {rows}))
    requires Outdated(s, s.agent.value)
    ensures s.agent.value.agent != Resolved(s.group.db, s.rows)
  {
    var values, tables, e := ValuesOf(run, {value}), TablesOf(run, {rows}), s.agent.value;
    RunRemembers(Start(value, rows), run, s, {value}, {rows});
    var t :| RemembersTable(s, tables, t, e.rowAt) && e.agent == Resolved(Found(e.source), t);
    if w: nat :| OutdatesSettings(s, w, e) {
      assert Found(e.source) != s.group.db;
    } else {
      var w: nat :| OutdatesRows(s, w, e);
      assert RowsOverwritten(s, e.rowAt) && t != s.rows;
    }
  }

  /** A settings writer that outdates the string and has an invalidation missing, or was crossed. */
  predicate MissedBySettings(s: State, w: nat, e: Entry) {
    OutdatesSettings(s, w, e) &&
    (SettingsCache.NotInvalidated(s.group.writers[w]) || !Invalidated(s, BySettings(w)) ||
     CrossesAgent(s, BySettings(w), e) || CrossesGroup(s, w, e))
  }

  predicate MissedByRows(s: State, w: nat, e: Entry) {
    OutdatesRows(s, w, e) && (!Invalidated(s, ByRows(w)) || CrossesAgent(s, ByRows(w), e))
  }

  /** Every writer of settings or rows has invalidated whatever it has to. */
  ghost predicate WritersDone(s: State) {
    && (forall w: nat :: w < |s.group.writers| ==> !SettingsCache.NotInvalidated(s.group.writers[w]) && Invalidated(s, BySettings(w)))
    && (forall c :: c in s.invalidations ==> Invalidated(s, c))
  }

  /** In every run whose commits bring nothing back, and after which no earlier pair of settings and rows
      stands for the string that the committed pair stands for: the cached string is stale exactly when a
      writer that outdates it has an invalidation missing, or was crossed by the fill of the string or of
      the settings entry; and once every writer is done, exactly when one was crossed. */
  lemma StaleAgentIffMissed(value: SettingsCache.Value, rows: Rows, run: seq<Step>, s: State)
    requires Reaches(Start(value, rows), run, s) && s.agent.Some? && WritesNew(run, {value}, {rows})
    requires StandsOut(s, ValuesOf(run, {value}), TablesOf(run, {rows}))
    ensures s.agent.value.agent != Resolved(s.group.db, s.rows) <==>
      (exists w: nat :: MissedBySettings(s, w, s.agent.value)) || (exists w: nat :: MissedByRows(s, w, s.agent.value))
    ensures WritersDone(s) ==>
      (s.agent.value.agent != Resolved(s.group.db, s.rows) <==>
        (exists w: nat :: OutdatesSettings(s, w, s.agent.value) &&
           (CrossesAgent(s, BySettings(w), s.agent.value) || CrossesGroup(s, w, s.agent.value))) ||
        (exists w: nat :: OutdatesRows(s, w, s.agent.value) && CrossesAgent(s, ByRows(w), s.agent.value)))
  {
    var e := s.agent.value;
    if e.agent != Resolved(s.group.db, s.rows) {
      StaleAgentExplained(value, rows, run, s);
      if w: nat :| OutdatesSettings(s, w, e) {
        assert MissedBySettings(s, w, e);
      } else {
        var w: nat :| OutdatesRows(s, w, e);
        assert MissedByRows(s, w, e);
      }
    } else if Outdated(s, e) {
      OutdatedMeansStale(value, rows, run, s);
    }
  }

  /* A run in which only the settings cache is crossed */

  function Lifted(run: seq<SettingsCache.Step>): seq<Step> {
    seq(|run|, i requires 0 <= i < |run| => Group(run[i]))
  }

  /** Every run of the settings cache is a run here. */
  lemma {:induction false} GroupRun(s: State, run: seq<SettingsCache.Step>, g: SettingsCache.State)
    requires SettingsCache.Reaches(s.group, run, g)
    ensures Reaches(s, Lifted(run), s.(group := g))
    decreases |run|
  {
    if run != [] {
      assert Lifted(run)[0] == Group(run[0]) && Lifted(run)[1..] == Lifted(run[1..]);
      GroupRun(Next(s, Group(run[0])), run[1..], g);
    }
  }

  /** What `n` steps of the string leave of the settings cache. */
  function Ticked(g: SettingsCache.State, n: nat): SettingsCache.State {
    g.(steps := g.steps + n)
  }

  /** Takes one more step that is none of the settings cache's. */
  lemma ThenHere(s: State, run: seq<Step>, s1: State, step: Step) returns (longer: seq<Step>, s2: State)
    requires Reaches(s, run, s1) && Enabled(s1, step) && !step.Group?
    ensures s2 == Effect(s1, step).(group := Ticked(s1.group, 1)) && Reaches(s, longer, s2)
  {
    longer, s2 := Runs.Then(Try, s, run, s1, step);
  }

  function Complete(now: nat): Invalidation {
    Invalidation(now, Some(now + 1), Some(now + 2), SettingsCache.Finished)
  }

  lemma StringTurnedTo(s: State, run: seq<Step>, s1: State, w: nat) returns (longer: seq<Step>, s2: State)
    requires Reaches(s, run, s1) && Enabled(s1, TurnToAgent(w)) && s1.invalidations == map[]
    ensures Reaches(s, longer, s2)
    ensures s2 == s1.(group := Ticked(s1.group, 1),
                      invalidations := map[BySettings(w) := Invalidation(s1.group.steps, None, None, SettingsCache.ToDelete)])
  {
    longer, s2 := ThenHere(s, run, s1, TurnToAgent(w));
    assert s2.invalidations == map[BySettings(w) := Invalidation(s1.group.steps, None, None, SettingsCache.ToDelete)];
  }

  lemma StringDeleted(s: State, run: seq<Step>, s1: State, w: nat) returns (longer: seq<Step>, s2: State)
    requires Reaches(s, run, s1) && Enabled(s1, TurnToAgent(w)) && s1.invalidations == map[]
    ensures Reaches(s, longer, s2)
    ensures var now := s1.group.steps;
      s2 == State(Ticked(s1.group, 2), s1.rows, None, s1.agentVer, s1.loaders,
                  map[BySettings(w) := Invalidation(now, Some(now + 1), None, SettingsCache.ToBump)])
  {
    longer, s2 := StringTurnedTo(s, run, s1, w);
    longer, s2 := ThenHere(s, longer, s2, Delete(BySettings(w), true));
  }

  lemma StringInvalidated(s: State, run: seq<Step>, s1: State, w: nat) returns (longer: seq<Step>, s2: State)
    requires Reaches(s, run, s1) && Enabled(s1, TurnToAgent(w)) && s1.invalidations == map[]
    ensures Reaches(s, longer, s2)
    ensures s2 == State(Ticked(s1.group, 3), s1.rows, None, Some(s1.group.steps + 2), s1.loaders,
                        map[BySettings(w) := Complete(s1.group.steps)])
  {
    longer, s2 := StringDeleted(s, run, s1, w);
    longer, s2 := ThenHere(s, longer, s2, Bump(BySettings(w), true));
  }

  lemma LoaderMissed(s: State, run: seq<Step>, s1: State) returns (longer: seq<Step>, s2: State)
    requires Reaches(s, run, s1) && s1.agent == None && s1.loaders == map[]
    ensures Reaches(s, longer, s2)
    ensures s2 == s1.(group := Ticked(s1.group, 1), loaders := map[0 := Missed])
  {
    longer, s2 := ThenHere(s, run, s1, Get(0));
  }

  lemma LoaderVersioned(s: State, run: seq<Step>, s1: State) returns (longer: seq<Step>, s2: State)
    requires Reaches(s, run, s1) && s1.agent == None && s1.loaders == map[]
    ensures Reaches(s, longer, s2)
    ensures s2 == s1.(group := Ticked(s1.group, 2), loaders := map[0 := Versioned(s1.agentVer, s1.group.steps + 1)])
  {
    longer, s2 := LoaderMissed(s, run, s1);
    longer, s2 := ThenHere(s, longer, s2, ReadVersion(0));
  }

  lemma SettingFound(s: State, run: seq<Step>, s1: State, e: SettingsCache.Entry, ver: Option<nat>, verAt: nat)
    returns (longer: seq<Step>, s2: State)
    requires Reaches(s, run, s1) && SettingsCache.Cached(s1.group) == Some(e) && s1.loaders == map[0 := Versioned(ver, verAt)]
    ensures Reaches(s, longer, s2)
    ensures s2 == s1.(group := Ticked(s1.group, 1), loaders := map[0 := SettingRead(ver, verAt, FromCache(e, s1.group.steps))])
  {
    longer, s2 := ThenHere(s, run, s1, SettingFromCache(0));
    assert s2.loaders == map[0 := SettingRead(ver, verAt, FromCache(e, s1.group.steps))];
  }

  lemma StringFound(s: State, run: seq<Step>, s1: State, e: SettingsCache.Entry, ver: Option<nat>, verAt: nat)
    returns (longer: seq<Step>, s2: State)
    requires Reaches(s, run, s1) && SettingsCache.Cached(s1.group) == Some(e) && s1.loaders == map[0 := Versioned(ver, verAt)]
    ensures Reaches(s, longer, s2)
    ensures var now := s1.group.steps; var agent := Resolved(e.value, s1.rows);
      s2 == s1.(group := Ticked(s1.group, 2), loaders := map[0 := StringRead(ver, verAt, FromCache(e, now), agent, now + 1)])
  {
    longer, s2 := SettingFound(s, run, s1, e, ver, verAt);
    longer, s2 := ThenHere(s, longer, s2, ReadString(0));
  }

  lemma StringFilled(s: State, run: seq<Step>, s1: State, verAt: nat, source: Source, agent: string, rowAt: nat)
    returns (longer: seq<Step>, s2: State)
    requires Reaches(s, run, s1) && s1.loaders == map[0 := StringRead(s1.agentVer, verAt, source, agent, rowAt)]
    ensures Reaches(s, longer, s2)
    ensures var now := s1.group.steps;
      s2 == s1.(group := Ticked(s1.group, 2), loaders := map[],
                agent := Some(Entry(agent, verAt, source, rowAt, now, now + 1)))
  {
    longer, s2 := ThenHere(s, run, s1, Recheck(0));
    longer, s2 := ThenHere(s, longer, s2, Fill(0));
    assert s2.loaders == map[];
  }

  lemma StringLoaded(s: State, run: seq<Step>, s1: State, e: SettingsCache.Entry) returns (longer: seq<Step>, s2: State)
    requires Reaches(s, run, s1) && SettingsCache.Cached(s1.group) == Some(e) && s1.agent == None && s1.loaders == map[]
    ensures Reaches(s, longer, s2)
    ensures var now := s1.group.steps;
      s2 == s1.(group := Ticked(s1.group, 6),
                agent := Some(Entry(Resolved(e.value, s1.rows), now + 1, FromCache(e, now + 2), now + 3, now + 4, now + 5)))
  {
    var now := s1.group.steps;
    longer, s2 := LoaderVersioned(s, run, s1);
    longer, s2 := StringFound(s, longer, s2, e, s1.agentVer, now + 1);
    longer, s2 := StringFilled(s, longer, s2, now + 1, FromCache(e, now + 2), Resolved(e.value, s1.rows), now + 3);
  }

  /** A run after which the cached string is stale although its own guard was never crossed, nothing failed
      and every writer is done: the settings entry it was loaded from was. */
  lemma StaleThroughTheSettings(stale: SettingsCache.Value, latest: SettingsCache.Value, rows: Rows)
    requires Resolved(stale, rows) != Resolved(latest, rows)
    ensures exists run, s :: Reaches(Start(stale, rows), run, s) && AllDone(s) && StaleUncrossed(s)
  {
    var run, s := SettingsCrossedOnly(stale, latest, rows);
    var e := SettingsCache.Cached(s.group).value;
    var now := s.group.steps;
    run, s := StringInvalidated(Start(stale, rows), run, s, 0);
    run, s := StringLoaded(Start(stale, rows), run, s, e);
    assert s.invalidations == map[BySettings(0) := Complete(now)];
    assert AllDone(s) && StaleUncrossed(s);
  }

  lemma SettingsCrossedOnly(stale: SettingsCache.Value, latest: SettingsCache.Value, rows: Rows) returns (run: seq<Step>, s: State)
    requires stale != latest
    ensures Reaches(Start(stale, rows), run, s) && s == Start(stale, rows).(group := s.group) && s.group.db == latest
    ensures SettingsCache.Cached(s.group).Some? && SettingsCache.Cached(s.group).value.value == stale
    ensures s.group.readers == map[] && |s.group.writers| == 1
    ensures s.group.writers[0].stage.Finished? && !SettingsCache.NotInvalidated(s.group.writers[0])
  {
    SettingsCache.CrossedRunLeavesStaleEntry(stale, latest);
    var groupRun, g :|
      && SettingsCache.Reaches(SettingsCache.Start(stale), groupRun, g) && g.db == latest
      && SettingsCache.Cached(g).Some? && SettingsCache.Cached(g).value.value == stale
      && g.readers == map[] && |g.writers| == 1 && g.writers[0].stage.Finished? && !SettingsCache.NotInvalidated(g.writers[0]);
    GroupRun(Start(stale, rows), groupRun, g);
    run, s := Lifted(groupRun), Start(stale, rows).(group := g);
  }

  predicate StaleUncrossed(s: State) {
    && s.agent.Some? && s.agent.value.agent != Resolved(s.group.db, s.rows)
    && forall c :: c in s.invalidations ==> !CrossesAgent(s, c, s.agent.value)
  }

  /** Nobody is reading, and every writer has invalidated whatever it has to. */
  ghost predicate AllDone(s: State) {
    s.group.readers == map[] && s.loaders == map[] && WritersDone(s)
  }
}
