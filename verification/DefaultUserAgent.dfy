/** The cached default User-Agent string, derived from the cached stream settings and a second table.

    Each invalidation (delete and bump) and each recheck-and-fill is one step here; everything else
    interleaves freely.  A settings writer invalidates the group first and the string after it.  AgentCache
    takes these steps apart. */
module DefaultUserAgent {
  import opened Options
  import Runs
  import SettingsCache

  type Setting = SettingsCache.Setting

  const FALLBACK := "Dispatcharr/0.29.0"

  /** The string the settings and the User-Agent rows stand for. */
  function Resolved(setting: Setting, rows: map<int, string>): string {
    if setting.Id? && setting.id in rows && rows[setting.id] != "" then rows[setting.id] else FALLBACK
  }

  datatype GroupReader = GroupReader(ver: nat, value: Option<Setting>)

  datatype Loader =
    | Versioned(ver: nat)
    | SettingRead(ver: nat, setting: Setting)
    | StringRead(ver: nat, agent: string)

  datatype State = State(
    setting: Setting,
    rows: map<int, string>,
    group: Option<Setting>,
    groupVer: nat,
    agent: Option<string>,
    agentVer: nat,
    groupReaders: map<nat, GroupReader>,
    loaders: map<nat, Loader>,
    /* settings writers that have committed and not invalidated the group, those that have not yet
       invalidated the string, and row writers that have not invalidated the string */
    toGroup: set<nat>,
    toAgent: set<nat>,
    rowWriters: set<nat>)

  datatype Step =
    | GroupMiss(r: nat)
    | GroupLoad(r: nat)
    | GroupFill(r: nat)
    | AgentMiss(r: nat)
    | SettingFromCache(r: nat)
    | SettingFromRow(r: nat)
    | ReadString(r: nat)
    | AgentFill(r: nat)
    | Abandon(r: nat)
    | CommitSetting(w: nat, setting: Setting)
    | InvalidateGroup(w: nat)
    | InvalidateAgent(w: nat)
    | CommitRows(w: nat, rows: map<int, string>)
    | InvalidateAgentForRows(w: nat)
    | EvictGroup
    | EvictAgent

  predicate Enabled(s: State, step: Step) {
    match step
    case GroupMiss(r) => r !in s.groupReaders && s.group.None?
    case GroupLoad(r) => r in s.groupReaders && s.groupReaders[r].value.None?
    case GroupFill(r) => r in s.groupReaders && s.groupReaders[r].value.Some?
    case AgentMiss(r) => r !in s.loaders && s.agent.None?
    case SettingFromCache(r) => r in s.loaders && s.loaders[r].Versioned? && s.group.Some?
    case SettingFromRow(r) => r in s.loaders && s.loaders[r].Versioned?
    case ReadString(r) => r in s.loaders && s.loaders[r].SettingRead?
    case AgentFill(r) => r in s.loaders && s.loaders[r].StringRead?
    case Abandon(r) => true
    case CommitSetting(w, _) => w !in s.toGroup + s.toAgent
    case InvalidateGroup(w) => w in s.toGroup
    case InvalidateAgent(w) => w in s.toAgent
    case CommitRows(w, _) => w !in s.rowWriters
    case InvalidateAgentForRows(w) => w in s.rowWriters
    case EvictGroup => true
    case EvictAgent => true
  }

  function Next(s: State, step: Step): State
    requires Enabled(s, step)
  {
    match step
    case GroupMiss(r) => s.(groupReaders := s.groupReaders[r := GroupReader(s.groupVer, None)])
    case GroupLoad(r) => s.(groupReaders := s.groupReaders[r := GroupReader(s.groupReaders[r].ver, Some(s.setting))])
    case GroupFill(r) =>
      s.(group := if s.groupVer == s.groupReaders[r].ver then s.groupReaders[r].value else s.group,
         groupReaders := s.groupReaders - {r})
    case AgentMiss(r) => s.(loaders := s.loaders[r := Versioned(s.agentVer)])
    case SettingFromCache(r) => s.(loaders := s.loaders[r := SettingRead(s.loaders[r].ver, s.group.value)])
    case SettingFromRow(r) => s.(loaders := s.loaders[r := SettingRead(s.loaders[r].ver, s.setting)])
    case ReadString(r) => s.(loaders := s.loaders[r := StringRead(s.loaders[r].ver, Resolved(s.loaders[r].setting, s.rows))])
    case AgentFill(r) =>
      s.(agent := if s.agentVer == s.loaders[r].ver then Some(s.loaders[r].agent) else s.agent,
         loaders := s.loaders - {r})
    case Abandon(r) => s.(groupReaders := s.groupReaders - {r}, loaders := s.loaders - {r})
    case CommitSetting(w, setting) => s.(setting := setting, toGroup := s.toGroup + {w})
    case InvalidateGroup(w) =>
      s.(group := None, groupVer := s.groupVer + 1, toGroup := s.toGroup - {w}, toAgent := s.toAgent + {w})
    case InvalidateAgent(w) => s.(agent := None, agentVer := s.agentVer + 1, toAgent := s.toAgent - {w})
    case CommitRows(w, rows) => s.(rows := rows, rowWriters := s.rowWriters + {w})
    case InvalidateAgentForRows(w) => s.(agent := None, agentVer := s.agentVer + 1, rowWriters := s.rowWriters - {w})
    case EvictGroup => s.(group := None)
    case EvictAgent => s.(agent := None)
  }

  function Start(setting: Setting, rows: map<int, string>): State {
    State(setting, rows, None, 0, None, 0, map[], map[], {}, {}, {})
  }

  function Try(s: State, step: Step): Option<State> {
    if Enabled(s, step) then Some(Next(s, step)) else None
  }

  ghost predicate Reaches(s: State, run: seq<Step>, s': State) {
    Runs.Reaches(Try, s, run, s')
  }

  /* The invariant */

  /** Some writer of either table has committed and not finished invalidating. */
  ghost predicate Pending(s: State) {
    s.toGroup + s.toAgent != {} || s.rowWriters != {}
  }

  ghost predicate SaneGroupReader(s: State, r: GroupReader) {
    r.ver <= s.groupVer && (r.ver == s.groupVer && r.value.Some? ==> r.value.value == s.setting || s.toGroup != {})
  }

  ghost predicate SaneLoader(s: State, l: Loader) {
    l.ver <= s.agentVer
    && match l
       case Versioned(_) => true
       case SettingRead(ver, setting) => ver == s.agentVer ==> setting == s.setting || s.toGroup + s.toAgent != {}
       case StringRead(ver, agent) => ver == s.agentVer ==> agent == Resolved(s.setting, s.rows) || Pending(s)
  }

  ghost predicate Inv(s: State) {
    && (s.group.Some? ==> s.group.value == s.setting || s.toGroup != {})
    && (s.agent.Some? ==> s.agent.value == Resolved(s.setting, s.rows) || Pending(s))
    && (forall r :: r in s.groupReaders ==> SaneGroupReader(s, s.groupReaders[r]))
    && (forall r :: r in s.loaders ==> SaneLoader(s, s.loaders[r]))
  }

  lemma GroupReaderStaysSane(s: State, step: Step, r: nat)
    requires Inv(s) && Enabled(s, step) && r in Next(s, step).groupReaders
    ensures SaneGroupReader(Next(s, step), Next(s, step).groupReaders[r])
  {
    if r in s.groupReaders {
      assert SaneGroupReader(s, s.groupReaders[r]);
    }
    if step.CommitSetting? {
      assert step.w in Next(s, step).toGroup;
    }
  }

  lemma LoaderStaysSane(s: State, step: Step, r: nat)
    requires Inv(s) && Enabled(s, step) && r in Next(s, step).loaders
    ensures SaneLoader(Next(s, step), Next(s, step).loaders[r])
  {
    PendingWriters(s, step);
    if r in s.loaders {
      assert SaneLoader(s, s.loaders[r]);
    }
  }

  /** Committing makes a writer pending, and a settings writer stays pending until it has
      invalidated the string. */
  lemma PendingWriters(s: State, step: Step)
    requires Enabled(s, step)
    ensures step.CommitSetting? ==> Next(s, step).toGroup != {}
    ensures step.CommitRows? ==> Next(s, step).rowWriters != {}
    ensures step.InvalidateGroup? ==> Next(s, step).toAgent != {}
    ensures s.toGroup != {} ==> s.toGroup + s.toAgent != {}
    ensures Next(s, step).toGroup != {} || Next(s, step).toAgent != {} ==> Next(s, step).toGroup + Next(s, step).toAgent != {}
    ensures s.toGroup + s.toAgent != {} && !step.InvalidateAgent? ==> Next(s, step).toGroup + Next(s, step).toAgent != {}
  {
    var s' := Next(s, step);
    if step.CommitSetting? {
      assert step.w in s'.toGroup;
    }
    if step.CommitRows? {
      assert step.w in s'.rowWriters;
    }
    if step.InvalidateGroup? {
      assert step.w in s'.toAgent;
    }
    if x :| x in s.toGroup + s.toAgent {
      assert !step.InvalidateAgent? ==> x in s'.toGroup + s'.toAgent;
    }
    if x :| x in s'.toGroup || x in s'.toAgent {
      assert x in s'.toGroup + s'.toAgent;
    }
  }

  lemma StepKeepsInv(s: State, step: Step)
    requires Inv(s) && Enabled(s, step)
    ensures Inv(Next(s, step))
  {
    var s' := Next(s, step);
    PendingWriters(s, step);
    forall r | r in s'.groupReaders
      ensures SaneGroupReader(s', s'.groupReaders[r])
    {
      GroupReaderStaysSane(s, step, r);
    }
    forall r | r in s'.loaders
      ensures SaneLoader(s', s'.loaders[r])
    {
      LoaderStaysSane(s, step, r);
    }
    if step.GroupFill? {
      assert SaneGroupReader(s, s.groupReaders[step.r]);
    }
    if step.AgentFill? {
      assert SaneLoader(s, s.loaders[step.r]);
    }
  }

  lemma RunKeepsInv(s: State, run: seq<Step>, s': State)
    requires Inv(s) && Reaches(s, run, s')
    ensures Inv(s')
  {
    forall x, step | Inv(x) && Try(x, step).Some? ensures Inv(Try(x, step).value) {
      StepKeepsInv(x, step);
    }
    Runs.RunKeeps(Try, Inv, s, run, s');
  }

  /** In every run the cached string is the one the committed settings and rows stand for, unless a
      writer of either table has committed and not yet finished invalidating; and so is the cached
      setting the loader reads through. */
  lemma CachedAgentAgrees(setting: Setting, rows: map<int, string>, run: seq<Step>, s: State)
    requires Reaches(Start(setting, rows), run, s)
    ensures s.agent.Some? && !Pending(s) ==> s.agent.value == Resolved(s.setting, s.rows)
    ensures s.group.Some? && s.toGroup == {} ==> s.group.value == s.setting
  {
    RunKeepsInv(Start(setting, rows), run, s);
  }

  /** What that string is: the configured row's, or the fallback if the setting is unset or no number, if
      there is no such row, and if the row's string is empty. */
  lemma ConfiguredAgentIsUsed(setting: Setting, rows: map<int, string>, run: seq<Step>, s: State)
    requires Reaches(Start(setting, rows), run, s) && s.agent.Some? && !Pending(s)
    ensures match s.setting
      case Unset => s.agent.value == "Dispatcharr/0.29.0"
      case Invalid => s.agent.value == "Dispatcharr/0.29.0"
      case Id(i) =>
        if i !in s.rows then s.agent.value == "Dispatcharr/0.29.0"
        else s.agent.value == if |s.rows[i]| > 0 then s.rows[i] else "Dispatcharr/0.29.0"
  {
    CachedAgentAgrees(setting, rows, run, s);
  }

  /** A stale string, while no row writer is pending, points at a settings writer that still has an
      invalidation to do. */
  lemma StaleAgentHasPendingWriter(setting: Setting, rows: map<int, string>, run: seq<Step>, s: State)
    requires Reaches(Start(setting, rows), run, s) && s.agent.Some? && s.rowWriters == {}
    requires s.agent.value != Resolved(s.setting, s.rows)
    ensures exists w :: w in s.toGroup || w in s.toAgent
  {
    RunKeepsInv(Start(setting, rows), run, s);
    var w :| w in s.toGroup + s.toAgent;
  }

  /* The cache can always become right again */

  ghost predicate SameSource(s: State, s': State) {
    s'.setting == s.setting && s'.rows == s.rows
  }

  /** One writer after the other finishes. */
  lemma {:induction false} WritersFinish(s: State) returns (run: seq<Step>, s': State)
    ensures Reaches(s, run, s') && SameSource(s, s') && !Pending(s')
    decreases |s.toGroup|, |s.toAgent|, |s.rowWriters|
  {
    if Pending(s) {
      var step := NextToFinish(s);
      var rest;
      rest, s' := WritersFinish(Next(s, step));
      run := [step] + rest;
      assert run[1..] == rest;
    } else {
      run, s' := [], s;
    }
  }

  lemma NextToFinish(s: State) returns (step: Step)
    requires Pending(s)
    ensures Enabled(s, step) && SameSource(s, Next(s, step))
    ensures var s' := Next(s, step);
      |s'.toGroup| < |s.toGroup| || (s'.toGroup == s.toGroup &&
        (|s'.toAgent| < |s.toAgent| || (s'.toAgent == s.toAgent && |s'.rowWriters| < |s.rowWriters|)))
  {
    if w :| w in s.toGroup {
      step := InvalidateGroup(w);
    } else if w :| w in s.toAgent {
      step := InvalidateAgent(w);
    } else {
      assert s.toGroup + s.toAgent == {};
      var w :| w in s.rowWriters;
      step := InvalidateAgentForRows(w);
    }
  }

  lemma GroupReloaded(s: State, run: seq<Step>, s1: State, r: nat) returns (longer: seq<Step>, s2: State)
    requires Reaches(s, run, s1) && r !in s1.groupReaders && s1.group.None?
    ensures Reaches(s, longer, s2) && s2 == s1.(group := Some(s1.setting))
  {
    longer, s2 := Runs.Then(Try, s, run, s1, GroupMiss(r));
    longer, s2 := Runs.Then(Try, s, longer, s2, GroupLoad(r));
    longer, s2 := Runs.Then(Try, s, longer, s2, GroupFill(r));
    assert s2.groupReaders == s1.groupReaders;
  }

  lemma SettingFound(s: State, run: seq<Step>, s1: State, r: nat) returns (longer: seq<Step>, s2: State)
    requires Reaches(s, run, s1) && r !in s1.loaders && s1.agent.None? && s1.group == Some(s1.setting)
    ensures Reaches(s, longer, s2) && s2 == s1.(loaders := s1.loaders[r := SettingRead(s1.agentVer, s1.setting)])
  {
    longer, s2 := Runs.Then(Try, s, run, s1, AgentMiss(r));
    longer, s2 := Runs.Then(Try, s, longer, s2, SettingFromCache(r));
    assert s2.loaders == s1.loaders[r := SettingRead(s1.agentVer, s1.setting)];
  }

  lemma AgentReloaded(s: State, run: seq<Step>, s1: State, r: nat) returns (longer: seq<Step>, s2: State)
    requires Reaches(s, run, s1) && r !in s1.loaders && s1.agent.None? && s1.group == Some(s1.setting)
    ensures Reaches(s, longer, s2) && s2 == s1.(agent := Some(Resolved(s1.setting, s1.rows)))
  {
    longer, s2 := SettingFound(s, run, s1, r);
    longer, s2 := Runs.Then(Try, s, longer, s2, ReadString(r));
    longer, s2 := Runs.Then(Try, s, longer, s2, AgentFill(r));
    assert s2.loaders == s1.loaders;
  }

  predicate BothFilled(s: State) {
    s.group == Some(s.setting) && s.agent == Some(Resolved(s.setting, s.rows))
  }

  /** From every state, whoever is reading or writing, a run in which nothing more is committed ends with no
      writer pending and both caches holding what is committed. */
  lemma AgentCanBeRefreshed(s: State)
    ensures exists run, s' :: Reaches(s, run, s') && SameSource(s, s') && !Pending(s') && BothFilled(s')
  {
    var run, s' := WritersFinish(s);
    run, s' := Runs.Then(Try, s, run, s', EvictGroup);
    run, s' := Runs.Then(Try, s, run, s', EvictAgent);
    var r := NewId(s'.groupReaders.Keys + s'.loaders.Keys);
    run, s' := GroupReloaded(s, run, s', r);
    run, s' := AgentReloaded(s, run, s', r);
  }

  lemma {:induction false} NewId(ids: set<nat>) returns (n: nat)
    ensures forall i: nat :: i in ids ==> i < n
    decreases |ids|
  {
    n := 0;
    if ids != {} {
      var one: nat :| one in ids;
      n := NewId(ids - {one});
      n := if n <= one then one + 1 else n;
      assert forall i: nat :: i in ids ==> i == one || i in ids - {one};
    }
  }
}
