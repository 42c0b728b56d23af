/** Periodic tasks, the schedule rows they share, and the cleanup of rows nobody uses any more. */
module Schedules {
  import opened Options
  import opened CronText
  import Channels

  datatype Period = Days | Hours | Minutes | Seconds | Microseconds

  datatype Interval = Interval(every: int, period: Period)

  datatype Crontab = Crontab(cron: Cron, timezone: string)

  datatype Task = Task(path: string, kwargs: string, enabled: bool, interval: Option<nat>, crontab: Option<nat>)

  /** A table of rows that are looked up by value and have no uniqueness constraint. */
  datatype Rows<T> = Rows(rows: map<nat, T>, next: nat)

  datatype Tables = Tables(intervals: Rows<Interval>, crontabs: Rows<Crontab>, tasks: map<string, Task>)

  predicate Numbered<T>(r: Rows<T>) {
    forall i :: i in r.rows ==> i < r.next
  }

  /** The lowest id from `from` on whose row is `v`. */
  function Oldest<T(==)>(r: Rows<T>, v: T, from: nat): (id: Option<nat>)
    ensures id.Some? ==> from <= id.value < r.next && id.value in r.rows && r.rows[id.value] == v
    ensures id.Some? ==> forall i :: from <= i < id.value && i in r.rows ==> r.rows[i] != v
    ensures id.None? ==> forall i :: from <= i < r.next && i in r.rows ==> r.rows[i] != v
    decreases r.next - from
  {
    if from >= r.next then None
    else if from in r.rows && r.rows[from] == v then Some(from)
    else Oldest(r, v, from + 1)
  }

  function Chosen<T(==)>(r: Rows<T>, v: T): nat {
    if Oldest(r, v, 0).Some? then Oldest(r, v, 0).value else r.next
  }

  function WithRow<T(==)>(r: Rows<T>, v: T): Rows<T> {
    if Oldest(r, v, 0).Some? then r else Rows(r.rows[r.next := v], r.next + 1)
  }

  predicate UsesInterval(t: Tables, id: nat) {
    exists name :: name in t.tasks && t.tasks[name].interval == Some(id)
  }

  predicate UsesCrontab(t: Tables, id: nat) {
    exists name :: name in t.tasks && t.tasks[name].crontab == Some(id)
  }

  /** Deleting a row takes along every task that refers to it. */
  function DeleteInterval(t: Tables, id: nat): Tables {
    t.(intervals := t.intervals.(rows := t.intervals.rows - {id}),
       tasks := map name | name in t.tasks && t.tasks[name].interval != Some(id) :: t.tasks[name])
  }

  function DeleteCrontab(t: Tables, id: nat): Tables {
    t.(crontabs := t.crontabs.(rows := t.crontabs.rows - {id}),
       tasks := map name | name in t.tasks && t.tasks[name].crontab != Some(id) :: t.tasks[name])
  }

  function CleanInterval(t: Tables, id: Option<nat>): Tables {
    if id.None? || UsesInterval(t, id.value) then t else DeleteInterval(t, id.value)
  }

  function CleanCrontab(t: Tables, id: Option<nat>): Tables {
    if id.None? || UsesCrontab(t, id.value) then t else DeleteCrontab(t, id.value)
  }

  /* The operations */

  datatype Request = Request(name: string, path: string, kwargs: string, hours: real, cron: string, enabled: bool, timezone: string)

  predicate UsesCron(r: Request) {
    Words(r.cron) != []
  }

  predicate Accepted(r: Request) {
    UsesCron(r) ==> Parse(r.cron).Some?
  }

  function WantedInterval(r: Request): Interval {
    Interval(if r.hours == 0.0 || Channels.Truncate(r.hours) < 1 then 1 else Channels.Truncate(r.hours), Hours)
  }

  function WantedCrontab(r: Request): Crontab
    requires Accepted(r) && UsesCron(r)
  {
    Crontab(Parse(r.cron).value, r.timezone)
  }

  function OldInterval(t: Tables, name: string): Option<nat> {
    if name in t.tasks then t.tasks[name].interval else None
  }

  function OldCrontab(t: Tables, name: string): Option<nat> {
    if name in t.tasks then t.tasks[name].crontab else None
  }

  function Unless(id: Option<nat>, kept: nat): Option<nat> {
    if id == Some(kept) then None else id
  }

  function WithCron(t: Tables, r: Request): Tables
    requires Accepted(r) && UsesCron(r)
  {
    var id := Chosen(t.crontabs, WantedCrontab(r));
    t.(crontabs := WithRow(t.crontabs, WantedCrontab(r)),
       tasks := t.tasks[r.name := Task(r.path, r.kwargs, r.enabled, None, Some(id))])
  }

  function WithInterval(t: Tables, r: Request): Tables {
    var id := Chosen(t.intervals, WantedInterval(r));
    t.(intervals := WithRow(t.intervals, WantedInterval(r)),
       tasks := t.tasks[r.name := Task(r.path, r.kwargs, r.enabled && r.hours > 0.0, Some(id), None)])
  }

  function Updated(t: Tables, r: Request): Tables {
    if !Accepted(r) then t
    else if UsesCron(r) then
      var id := Chosen(t.crontabs, WantedCrontab(r));
      CleanCrontab(CleanInterval(WithCron(t, r), OldInterval(t, r.name)), Unless(OldCrontab(t, r.name), id))
    else
      var id := Chosen(t.intervals, WantedInterval(r));
      CleanInterval(CleanCrontab(WithInterval(t, r), OldCrontab(t, r.name)), Unless(OldInterval(t, r.name), id))
  }

  function Deleted(t: Tables, name: string): Tables {
    CleanCrontab(CleanInterval(t.(tasks := t.tasks - {name}), OldInterval(t, name)), OldCrontab(t, name))
  }

  /* What holds of the tables */

  /** Every reference leads to a row. */
  ghost predicate Sound(t: Tables) {
    && Numbered(t.intervals) && Numbered(t.crontabs)
    && (forall name :: name in t.tasks ==> RefersToRows(t, name))
  }

  ghost predicate RefersToRows(t: Tables, name: string)
    requires name in t.tasks
  {
    && (t.tasks[name].interval.Some? ==> t.tasks[name].interval.value in t.intervals.rows)
    && (t.tasks[name].crontab.Some? ==> t.tasks[name].crontab.value in t.crontabs.rows)
  }

  ghost predicate OneScheduleEach(t: Tables) {
    forall name :: name in t.tasks ==> (t.tasks[name].interval.Some? <==> t.tasks[name].crontab.None?)
  }

  predicate OrphanInterval(t: Tables, id: nat) {
    id in t.intervals.rows && !UsesInterval(t, id)
  }

  predicate OrphanCrontab(t: Tables, id: nat) {
    id in t.crontabs.rows && !UsesCrontab(t, id)
  }

  /* Cleanup */

  /** Since the cleanup deletes only rows without references, the deletion takes no task along. */
  lemma CleanIntervalFacts(t: Tables, id: Option<nat>)
    ensures var u := CleanInterval(t, id);
      u.tasks == t.tasks && u.crontabs == t.crontabs && u.intervals.next == t.intervals.next
    ensures forall i :: i in CleanInterval(t, id).intervals.rows <==> i in t.intervals.rows && (id == Some(i) ==> UsesInterval(t, i))
    ensures forall i :: i in CleanInterval(t, id).intervals.rows ==> CleanInterval(t, id).intervals.rows[i] == t.intervals.rows[i]
  {
  }

  lemma CleanCrontabFacts(t: Tables, id: Option<nat>)
    ensures var u := CleanCrontab(t, id);
      u.tasks == t.tasks && u.intervals == t.intervals && u.crontabs.next == t.crontabs.next
    ensures forall i :: i in CleanCrontab(t, id).crontabs.rows <==> i in t.crontabs.rows && (id == Some(i) ==> UsesCrontab(t, i))
    ensures forall i :: i in CleanCrontab(t, id).crontabs.rows ==> CleanCrontab(t, id).crontabs.rows[i] == t.crontabs.rows[i]
  {
  }

  ghost predicate SameValues<T>(r: Rows<T>, q: Rows<T>) {
    r.next == q.next && forall i :: i in r.rows ==> i in q.rows && r.rows[i] == q.rows[i]
  }

  /* Updating */

  function NewTask(t: Tables, r: Request): Task
    requires Accepted(r)
  {
    if UsesCron(r) then WithCron(t, r).tasks[r.name] else WithInterval(t, r).tasks[r.name]
  }

  /** Rows that the update leaves: all but those of the previous schedule that nobody uses now. */
  lemma UpdatedTables(t: Tables, r: Request)
    requires Accepted(r)
    ensures var u := Updated(t, r);
      && u.tasks == t.tasks[r.name := NewTask(t, r)]
      && (forall i :: i in u.intervals.rows <==>
            (i in t.intervals.rows || (!UsesCron(r) && i == Chosen(t.intervals, WantedInterval(r)))) &&
            (OldInterval(t, r.name) == Some(i) ==> UsesInterval(u, i)))
      && (forall i :: i in u.crontabs.rows <==>
            (i in t.crontabs.rows || (UsesCron(r) && i == Chosen(t.crontabs, WantedCrontab(r)))) &&
            (OldCrontab(t, r.name) == Some(i) ==> UsesCrontab(u, i)))
      && SameValues(u.intervals, if UsesCron(r) then t.intervals else WithRow(t.intervals, WantedInterval(r)))
      && SameValues(u.crontabs, if UsesCron(r) then WithRow(t.crontabs, WantedCrontab(r)) else t.crontabs)
  {
    if UsesCron(r) {
      var v := WithCron(t, r);
      var id := Chosen(t.crontabs, WantedCrontab(r));
      assert v.tasks[r.name].crontab == Some(id);
      CleanIntervalFacts(v, OldInterval(t, r.name));
      CleanCrontabFacts(CleanInterval(v, OldInterval(t, r.name)), Unless(OldCrontab(t, r.name), id));
    } else {
      var v := WithInterval(t, r);
      var id := Chosen(t.intervals, WantedInterval(r));
      assert v.tasks[r.name].interval == Some(id);
      CleanCrontabFacts(v, OldCrontab(t, r.name));
      CleanIntervalFacts(CleanCrontab(v, OldCrontab(t, r.name)), Unless(OldInterval(t, r.name), id));
    }
  }

  lemma UpdateKeepsSound(t: Tables, r: Request)
    requires Sound(t)
    ensures Sound(Updated(t, r)) && (OneScheduleEach(t) ==> OneScheduleEach(Updated(t, r)))
  {
    if Accepted(r) {
      UpdatedTables(t, r);
      var u := Updated(t, r);
      forall name | name in u.tasks ensures RefersToRows(u, name) {
        if u.tasks[name].interval.Some? {
          assert UsesInterval(u, u.tasks[name].interval.value);
        }
        if u.tasks[name].crontab.Some? {
          assert UsesCrontab(u, u.tasks[name].crontab.value);
        }
        assert name in t.tasks ==> RefersToRows(t, name);
      }
    }
  }

  /** The named task runs on the wanted schedule: the oldest row with that value, or a new one. */
  lemma UpdateServes(t: Tables, r: Request)
    requires Sound(t) && Accepted(r)
    ensures var u := Updated(t, r);
      r.name in u.tasks && u.tasks[r.name].path == r.path && u.tasks[r.name].kwargs == r.kwargs &&
      (u.tasks[r.name].enabled <==> r.enabled && (UsesCron(r) || r.hours > 0.0)) &&
      if UsesCron(r)
      then var id := Chosen(t.crontabs, WantedCrontab(r));
        u.tasks[r.name].crontab == Some(id) && id in u.crontabs.rows && u.crontabs.rows[id] == WantedCrontab(r)
      else var id := Chosen(t.intervals, WantedInterval(r));
        u.tasks[r.name].interval == Some(id) && id in u.intervals.rows && u.intervals.rows[id] == WantedInterval(r)
  {
    UpdatedTables(t, r);
    UpdateKeepsSound(t, r);
    assert RefersToRows(Updated(t, r), r.name);
  }

  /** What that schedule is, as the request says: the five words of the cron text in their places, and
      the timezone; or a whole number of hours, rounded down and at least 1. */
  lemma UpdateServesAsRequested(t: Tables, r: Request)
    requires Sound(t) && Accepted(r)
    ensures var u := Updated(t, r); r.name in u.tasks && var task := u.tasks[r.name];
      if Words(r.cron) != [] then
        var words := Words(r.cron);
        && |words| == 5 && task.interval == None && task.crontab.Some? && task.crontab.value in u.crontabs.rows
        && u.crontabs.rows[task.crontab.value] == Crontab(Cron(words[0], words[1], words[2], words[3], words[4]), r.timezone)
      else
        && task.crontab == None && task.interval.Some? && task.interval.value in u.intervals.rows
        && var row := u.intervals.rows[task.interval.value];
           row.period == Hours && row.every >= 1 && (r.hours < 2.0 ==> row.every == 1) &&
           (r.hours >= 1.0 ==> row.every as real <= r.hours < row.every as real + 1.0)
  {
    UpdateServes(t, r);
    UpdatedTables(t, r);
  }

  /** Every other task, and the row it runs on, stays as it was. */
  lemma UpdateLeavesOthers(t: Tables, r: Request, name: string)
    requires Sound(t) && name in t.tasks && (name != r.name || !Accepted(r))
    ensures var u := Updated(t, r);
      name in u.tasks && u.tasks[name] == t.tasks[name] && RefersToRows(u, name) && RefersToRows(t, name) &&
      (t.tasks[name].interval.Some? ==> u.intervals.rows[t.tasks[name].interval.value] == t.intervals.rows[t.tasks[name].interval.value]) &&
      (t.tasks[name].crontab.Some? ==> u.crontabs.rows[t.tasks[name].crontab.value] == t.crontabs.rows[t.tasks[name].crontab.value])
  {
    assert RefersToRows(t, name);
    if Accepted(r) {
      UpdatedTables(t, r);
      UpdateKeepsSound(t, r);
      assert RefersToRows(Updated(t, r), name);
    }
  }

  /** The unused rows are those from before, less the one that was taken into use. */
  lemma UpdateOrphans(t: Tables, r: Request, i: nat)
    requires Sound(t) && Accepted(r)
    ensures OrphanInterval(Updated(t, r), i) <==>
      OrphanInterval(t, i) && (UsesCron(r) || i != Chosen(t.intervals, WantedInterval(r)))
    ensures OrphanCrontab(Updated(t, r), i) <==>
      OrphanCrontab(t, i) && (!UsesCron(r) || i != Chosen(t.crontabs, WantedCrontab(r)))
  {
    UpdatedTables(t, r);
    var u := Updated(t, r);
    UsersAfterUpdate(t, r, i);
    if UsesInterval(t, i) && !UsesInterval(u, i) {
      assert OldInterval(t, r.name) == Some(i);
    }
    if UsesCrontab(t, i) && !UsesCrontab(u, i) {
      assert OldCrontab(t, r.name) == Some(i);
    }
    assert OldInterval(t, r.name) == Some(i) ==> UsesInterval(t, i);
    assert OldCrontab(t, r.name) == Some(i) ==> UsesCrontab(t, i);
  }

  /** A row is in use after the update if it is the chosen one or another task uses it. */
  lemma UsersAfterUpdate(t: Tables, r: Request, i: nat)
    requires Accepted(r)
    ensures UsesInterval(Updated(t, r), i) <==>
      (!UsesCron(r) && i == Chosen(t.intervals, WantedInterval(r))) ||
      exists name :: name in t.tasks && name != r.name && t.tasks[name].interval == Some(i)
    ensures UsesCrontab(Updated(t, r), i) <==>
      (UsesCron(r) && i == Chosen(t.crontabs, WantedCrontab(r))) ||
      exists name :: name in t.tasks && name != r.name && t.tasks[name].crontab == Some(i)
  {
    UpdatedTables(t, r);
    var u := Updated(t, r);
    assert u.tasks[r.name] == NewTask(t, r);
    forall name | name in t.tasks && name != r.name ensures name in u.tasks && u.tasks[name] == t.tasks[name] {
    }
  }

  lemma OldestIs<T>(r: Rows<T>, v: T, id: nat)
    requires Numbered(r) && id in r.rows && r.rows[id] == v && forall i :: i in r.rows && i < id ==> r.rows[i] != v
    ensures Oldest(r, v, 0) == Some(id) && Chosen(r, v) == id && WithRow(r, v) == r
  {
  }

  /** Making the same call again changes nothing. */
  lemma UpdateIsIdempotent(t: Tables, r: Request)
    requires Sound(t)
    ensures Updated(Updated(t, r), r) == Updated(t, r)
  {
    if Accepted(r) {
      UpdatedTables(t, r);
      UpdateKeepsSound(t, r);
      UpdateServes(t, r);
      SameChoice(t, r);
      var u := Updated(t, r);
      assert u.tasks[r.name := NewTask(u, r)] == u.tasks;
    }
  }

  /** The schedule wanted is there now, in the same row. */
  lemma SameChoice(t: Tables, r: Request)
    requires Sound(t) && Accepted(r)
    ensures var u := Updated(t, r);
      if UsesCron(r)
      then Chosen(u.crontabs, WantedCrontab(r)) == Chosen(t.crontabs, WantedCrontab(r)) && WithRow(u.crontabs, WantedCrontab(r)) == u.crontabs
      else Chosen(u.intervals, WantedInterval(r)) == Chosen(t.intervals, WantedInterval(r)) && WithRow(u.intervals, WantedInterval(r)) == u.intervals
  {
    UpdatedTables(t, r);
    UpdateKeepsSound(t, r);
    UpdateServes(t, r);
    var u := Updated(t, r);
    if UsesCron(r) {
      OldestIs(u.crontabs, WantedCrontab(r), Chosen(t.crontabs, WantedCrontab(r)));
    } else {
      OldestIs(u.intervals, WantedInterval(r), Chosen(t.intervals, WantedInterval(r)));
    }
  }

  /* Deleting */

  lemma DeletedTables(t: Tables, name: string)
    ensures var u := Deleted(t, name);
      && u.tasks == t.tasks - {name}
      && (forall i :: i in u.intervals.rows <==> i in t.intervals.rows && (OldInterval(t, name) == Some(i) ==> UsesInterval(u, i)))
      && (forall i :: i in u.crontabs.rows <==> i in t.crontabs.rows && (OldCrontab(t, name) == Some(i) ==> UsesCrontab(u, i)))
      && SameValues(u.intervals, t.intervals) && SameValues(u.crontabs, t.crontabs)
  {
    var v := t.(tasks := t.tasks - {name});
    CleanIntervalFacts(v, OldInterval(t, name));
    CleanCrontabFacts(CleanInterval(v, OldInterval(t, name)), OldCrontab(t, name));
  }

  lemma DeleteKeepsSound(t: Tables, name: string)
    requires Sound(t)
    ensures Sound(Deleted(t, name)) && (OneScheduleEach(t) ==> OneScheduleEach(Deleted(t, name)))
  {
    DeletedTables(t, name);
    var u := Deleted(t, name);
    forall other | other in u.tasks ensures RefersToRows(u, other) {
      assert RefersToRows(t, other);
      assert u.tasks[other].interval.Some? ==> UsesInterval(u, u.tasks[other].interval.value);
      assert u.tasks[other].crontab.Some? ==> UsesCrontab(u, u.tasks[other].crontab.value);
    }
  }

  lemma DeleteOrphans(t: Tables, name: string, i: nat)
    requires Sound(t)
    ensures OrphanInterval(Deleted(t, name), i) <==> OrphanInterval(t, i)
    ensures OrphanCrontab(Deleted(t, name), i) <==> OrphanCrontab(t, i)
  {
    DeletedTables(t, name);
    var u := Deleted(t, name);
    forall user | user in t.tasks && user != name ensures user in u.tasks && u.tasks[user] == t.tasks[user] {
    }
    assert UsesInterval(u, i) ==> UsesInterval(t, i);
    assert UsesCrontab(u, i) ==> UsesCrontab(t, i);
    if UsesInterval(t, i) && !UsesInterval(u, i) {
      var user :| user in t.tasks && t.tasks[user].interval == Some(i);
      assert user == name;
    }
    if UsesCrontab(t, i) && !UsesCrontab(u, i) {
      var user :| user in t.tasks && t.tasks[user].crontab == Some(i);
      assert user == name;
    }
    assert OldInterval(t, name) == Some(i) ==> UsesInterval(t, i);
    assert OldCrontab(t, name) == Some(i) ==> UsesCrontab(t, i);
  }

  /** Creating a task and deleting it leaves the tables as they were, except for an unused row that the
      creation had picked up. */
  lemma DeleteUndoesCreate(t: Tables, r: Request)
    requires Sound(t) && Accepted(r) && r.name !in t.tasks
    ensures var u := Deleted(Updated(t, r), r.name);
      && u.tasks == t.tasks
      && (forall i :: i in u.intervals.rows <==>
            i in t.intervals.rows && !(!UsesCron(r) && i == Chosen(t.intervals, WantedInterval(r)) && OrphanInterval(t, i)))
      && (forall i :: i in u.crontabs.rows <==>
            i in t.crontabs.rows && !(UsesCron(r) && i == Chosen(t.crontabs, WantedCrontab(r)) && OrphanCrontab(t, i)))
  {
    var v := Updated(t, r);
    var u := Deleted(v, r.name);
    UpdatedTables(t, r);
    DeletedTables(v, r.name);
    assert u.tasks == t.tasks;
    forall i ensures UsesInterval(u, i) == UsesInterval(t, i) && UsesCrontab(u, i) == UsesCrontab(t, i) {
    }
  }

  /* Runs */

  datatype Step = Update(request: Request) | Delete(name: string)

  function Next(t: Tables, step: Step): Tables {
    match step
    case Update(r) => Updated(t, r)
    case Delete(name) => Deleted(t, name)
  }

  function Run(t: Tables, steps: seq<Step>): Tables
    decreases |steps|
  {
    if steps == [] then t else Run(Next(t, steps[0]), steps[1..])
  }

  lemma {:induction false} RunKeepsSound(t: Tables, steps: seq<Step>)
    requires Sound(t)
    ensures Sound(Run(t, steps)) && (OneScheduleEach(t) ==> OneScheduleEach(Run(t, steps)))
    decreases |steps|
  {
    if steps != [] {
      match steps[0] {
        case Update(r) => UpdateKeepsSound(t, r);
        case Delete(name) => DeleteKeepsSound(t, name);
      }
      RunKeepsSound(Next(t, steps[0]), steps[1..]);
    }
  }

  lemma StepMakesNoOrphan(t: Tables, step: Step, i: nat)
    requires Sound(t)
    ensures Sound(Next(t, step))
    ensures OrphanInterval(Next(t, step), i) ==> OrphanInterval(t, i)
    ensures OrphanCrontab(Next(t, step), i) ==> OrphanCrontab(t, i)
  {
    match step {
      case Update(r) =>
        UpdateKeepsSound(t, r);
        if Accepted(r) { UpdateOrphans(t, r, i); }
      case Delete(name) =>
        DeleteKeepsSound(t, name);
        DeleteOrphans(t, name, i);
    }
  }

  lemma {:induction false} RunMakesNoOrphan(t: Tables, steps: seq<Step>, i: nat)
    requires Sound(t)
    ensures OrphanInterval(Run(t, steps), i) ==> OrphanInterval(t, i)
    ensures OrphanCrontab(Run(t, steps), i) ==> OrphanCrontab(t, i)
    decreases |steps|
  {
    if steps != [] {
      StepMakesNoOrphan(t, steps[0], i);
      RunMakesNoOrphan(Next(t, steps[0]), steps[1..], i);
    }
  }

  /** With nothing unused to begin with, the rows are after any run exactly those that tasks use. */
  lemma RowsAreExactlyTheUsed(t: Tables, steps: seq<Step>, i: nat)
    requires Sound(t) && (forall j :: !OrphanInterval(t, j) && !OrphanCrontab(t, j))
    ensures var u := Run(t, steps);
      (i in u.intervals.rows <==> UsesInterval(u, i)) && (i in u.crontabs.rows <==> UsesCrontab(u, i))
  {
    RunKeepsSound(t, steps);
    RunMakesNoOrphan(t, steps, i);
    var u := Run(t, steps);
    forall name | name in u.tasks ensures RefersToRows(u, name) {
    }
  }

  /* The module's functions, updating the tables in place */

  datatype Outcome = TaskSaved(task: Task) | BadCron

  class Scheduler {
    var intervals: Rows<Interval>
    var crontabs: Rows<Crontab>
    var tasks: map<string, Task>

    constructor (t: Tables)
      ensures State() == t
    {
      intervals, crontabs, tasks := t.intervals, t.crontabs, t.tasks;
    }

    function State(): Tables
      reads this
    {
      Tables(intervals, crontabs, tasks)
    }

    method GetOrCreateInterval(v: Interval) returns (id: nat)
      modifies this`intervals
      ensures id == Chosen(old(intervals), v) && intervals == WithRow(old(intervals), v)
    {
      var existing := First(intervals, v);
      if existing.Some? {
        return existing.value;
      }
      id := intervals.next;
      intervals := Rows(intervals.rows[id := v], id + 1);
    }

    method GetOrCreateCrontab(v: Crontab) returns (id: nat)
      modifies this`crontabs
      ensures id == Chosen(old(crontabs), v) && crontabs == WithRow(old(crontabs), v)
    {
      var existing := First(crontabs, v);
      if existing.Some? {
        return existing.value;
      }
      id := crontabs.next;
      crontabs := Rows(crontabs.rows[id := v], id + 1);
    }

    method CleanupOrphanedInterval(id: Option<nat>)
      modifies this
      ensures State() == CleanInterval(old(State()), id)
    {
      if id.None? {
        return;
      }
      if exists name :: name in tasks && tasks[name].interval == id {
        assert UsesInterval(State(), id.value);
        return;
      }
      assert !UsesInterval(State(), id.value);
      intervals := intervals.(rows := intervals.rows - {id.value});
      assert tasks == DeleteInterval(old(State()), id.value).tasks;
    }

    method CleanupOrphanedCrontab(id: Option<nat>)
      modifies this
      ensures State() == CleanCrontab(old(State()), id)
    {
      if id.None? {
        return;
      }
      if exists name :: name in tasks && tasks[name].crontab == id {
        assert UsesCrontab(State(), id.value);
        return;
      }
      assert !UsesCrontab(State(), id.value);
      crontabs := crontabs.(rows := crontabs.rows - {id.value});
      assert tasks == DeleteCrontab(old(State()), id.value).tasks;
    }

    method CreateOrUpdatePeriodicTask(r: Request) returns (outcome: Outcome)
      modifies this
      ensures State() == Updated(old(State()), r)
      ensures outcome == if Accepted(r) then TaskSaved(NewTask(old(State()), r)) else BadCron
    {
      var useCron := UsesCron(r);
      var shouldBeEnabled := r.enabled && (useCron || r.hours > 0.0);
      var oldInterval, oldCrontab := None, None;
      if r.name in tasks {
        oldInterval, oldCrontab := tasks[r.name].interval, tasks[r.name].crontab;
      }
      var task;
      if useCron {
        var cron := Parse(r.cron);
        if cron.None? {
          return BadCron;
        }
        var id := GetOrCreateCrontab(Crontab(cron.value, r.timezone));
        task := Task(r.path, r.kwargs, shouldBeEnabled, None, Some(id));
        tasks := tasks[r.name := task];
        CleanupOrphanedInterval(oldInterval);
        if oldCrontab.Some? && oldCrontab.value != id {
          CleanupOrphanedCrontab(oldCrontab);
        }
      } else {
        var id := GetOrCreateInterval(WantedInterval(r));
        task := Task(r.path, r.kwargs, shouldBeEnabled, Some(id), None);
        tasks := tasks[r.name := task];
        CleanupOrphanedCrontab(oldCrontab);
        if oldInterval.Some? && oldInterval.value != id {
          CleanupOrphanedInterval(oldInterval);
        }
      }
      outcome := TaskSaved(task);
    }

    method DeletePeriodicTask(name: string) returns (found: bool)
      modifies this
      ensures found == (name in old(tasks)) && State() == Deleted(old(State()), name)
    {
      found := name in tasks;
      if !found {
        assert tasks - {name} == tasks;
        return;
      }
      var task := tasks[name];
      tasks := tasks - {name};
      CleanupOrphanedInterval(task.interval);
      CleanupOrphanedCrontab(task.crontab);
    }
  }

  /** The first match in the order of ids. */
  method First<T(==)>(r: Rows<T>, v: T) returns (id: Option<nat>)
    ensures id == Oldest(r, v, 0)
  {
    var i := 0;
    while i < r.next
      invariant 0 <= i <= r.next && Oldest(r, v, 0) == Oldest(r, v, i)
    {
      if i in r.rows && r.rows[i] == v {
        return Some(i);
      }
      i := i + 1;
    }
    id := None;
  }
}
