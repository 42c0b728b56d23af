/** Numbers for channels that become visible, releases for channels that are hidden, and what any
    sequence of such steps and repacks preserves. */
module Assign {
  import opened Options
  import opened Channels
  import opened Allocation
  import opened Repack

  /* Resolving the relation of a channel */

  /** The relation of the account recorded for the group itself. */
  function Direct(rels: seq<Relation>, account: int, group: int): Option<Relation> {
    if rels == [] then None
    else if rels[0].account == account && rels[0].group == group then Some(rels[0])
    else Direct(rels[1..], account, group)
  }

  /** The last relation of the account whose override points at the group. */
  function LastOverriding(rels: seq<Relation>, account: int, group: int): Option<Relation> {
    if rels == [] then None
    else
      var later := LastOverriding(rels[1..], account, group);
      if later.Some? then later
      else if rels[0].account == account && rels[0].groupOverride == Some(group) then Some(rels[0])
      else None
  }

  /** The first such relation. */
  function FirstOverriding(rels: seq<Relation>, account: int, group: int): Option<Relation> {
    if rels == [] then None
    else if rels[0].account == account && rels[0].groupOverride == Some(group) then Some(rels[0])
    else FirstOverriding(rels[1..], account, group)
  }

  /** The relation the incremental assignment uses. */
  function Resolve(rels: seq<Relation>, account: int, group: Option<int>): Option<Relation> {
    if group.None? then None
    else
      var direct := Direct(rels, account, group.value);
      if direct.Some? then direct else LastOverriding(rels, account, group.value)
  }

  /** The relation the release on hide uses. */
  function RelationOf(rels: seq<Relation>, ch: Channel): Option<Relation> {
    if !ch.autoCreated || ch.account.None? || ch.group.None? then None
    else
      var direct := Direct(rels, ch.account.value, ch.group.value);
      if direct.Some? then direct else FirstOverriding(rels, ch.account.value, ch.group.value)
  }

  lemma {:induction false} ResolvedIsMember(rels: seq<Relation>, ch: Channel)
    requires ch.autoCreated && ch.account.Some? && Resolve(rels, ch.account.value, ch.group).Some?
    ensures IsMember(ch, Resolve(rels, ch.account.value, ch.group).value)
    decreases |rels|
  {
    var a, g := ch.account.value, ch.group.value;
    if Direct(rels, a, g).Some? {
      DirectMatches(rels, a, g);
    } else {
      OverridingMatches(rels, a, g);
    }
  }

  predicate IsDirect(r: Relation, account: int, group: int) {
    r.account == account && r.group == group
  }

  predicate IsOverride(r: Relation, account: int, group: int) {
    r.account == account && r.groupOverride == Some(group)
  }

  ghost predicate FirstWhere(rels: seq<Relation>, p: Relation -> bool, i: int) {
    0 <= i < |rels| && p(rels[i]) && forall j :: 0 <= j < i ==> !p(rels[j])
  }

  ghost predicate LastWhere(rels: seq<Relation>, p: Relation -> bool, i: int) {
    0 <= i < |rels| && p(rels[i]) && forall j :: i < j < |rels| ==> !p(rels[j])
  }

  lemma {:induction false} DirectIsFirst(rels: seq<Relation>, account: int, group: int) returns (i: int)
    ensures var p := (r: Relation) => IsDirect(r, account, group); var found := Direct(rels, account, group);
      if found.Some? then FirstWhere(rels, p, i) && found.value == rels[i] else forall j :: 0 <= j < |rels| ==> !p(rels[j])
    decreases |rels|
  {
    i := 0;
    if rels != [] && !IsDirect(rels[0], account, group) {
      i := DirectIsFirst(rels[1..], account, group);
      i := i + 1;
      assert forall j :: 0 < j < |rels| ==> rels[j] == rels[1..][j - 1];
    }
  }

  lemma {:induction false} OverridingIsFirst(rels: seq<Relation>, account: int, group: int) returns (i: int)
    ensures var p := (r: Relation) => IsOverride(r, account, group); var found := FirstOverriding(rels, account, group);
      if found.Some? then FirstWhere(rels, p, i) && found.value == rels[i] else forall j :: 0 <= j < |rels| ==> !p(rels[j])
    decreases |rels|
  {
    i := 0;
    if rels != [] && !IsOverride(rels[0], account, group) {
      i := OverridingIsFirst(rels[1..], account, group);
      i := i + 1;
      assert forall j :: 0 < j < |rels| ==> rels[j] == rels[1..][j - 1];
    }
  }

  lemma {:induction false} OverridingIsLast(rels: seq<Relation>, account: int, group: int) returns (i: int)
    ensures var p := (r: Relation) => IsOverride(r, account, group); var found := LastOverriding(rels, account, group);
      if found.Some? then LastWhere(rels, p, i) && found.value == rels[i] else forall j :: 0 <= j < |rels| ==> !p(rels[j])
    decreases |rels|
  {
    i := 0;
    if rels != [] {
      i := OverridingIsLast(rels[1..], account, group);
      assert forall j :: 0 < j < |rels| ==> rels[j] == rels[1..][j - 1];
      i := if LastOverriding(rels[1..], account, group).Some? then i + 1 else 0;
    }
  }

  lemma {:induction false} DirectMatches(rels: seq<Relation>, account: int, group: int)
    requires Direct(rels, account, group).Some?
    ensures var rel := Direct(rels, account, group).value; rel in rels && rel.account == account && rel.group == group
  {
    if !(rels[0].account == account && rels[0].group == group) {
      DirectMatches(rels[1..], account, group);
    }
  }

  lemma {:induction false} OverridingMatches(rels: seq<Relation>, account: int, group: int)
    requires LastOverriding(rels, account, group).Some?
    ensures var rel := LastOverriding(rels, account, group).value;
      rel in rels && rel.account == account && rel.groupOverride == Some(group)
  {
    if LastOverriding(rels[1..], account, group).Some? {
      OverridingMatches(rels[1..], account, group);
    }
  }

  /* Assigning within one group */

  predicate Eligible(ch: Channel) {
    ch.autoCreated && ch.account.Some? && !ch.hidden && ch.number.None? && ch.pinned.None?
  }

  /** Channels of one group that wait for numbers, in the order they are served. */
  datatype Entry = Entry(rel: Relation, waiting: seq<nat>)

  ghost predicate Distinct(cs: seq<nat>) {
    forall i, j :: 0 <= i < j < |cs| ==> cs[i] != cs[j]
  }

  ghost predicate WellFormed(t: Table, e: Entry) {
    Distinct(e.waiting) && forall c :: c in e.waiting ==> c in t && Eligible(t[c]) && IsMember(t[c], e.rel)
  }

  function Waiting(e: Entry): set<nat> {
    set c | c in e.waiting
  }

  function Offered(t: Table, e: Entry): (nums: seq<int>)
    ensures |nums| <= |e.waiting|
  {
    FreeNumbers(Reserved(t, Waiting(e)), Start(e.rel), End(e.rel), |e.waiting|)
  }

  ghost function OfferFor(t: Table, e: Entry, c: nat): Option<real> {
    var nums := Offered(t, e);
    if k: nat :| k < |nums| && e.waiting[k] == c then Some(nums[k] as real) else None
  }

  ghost function Assigned(t: Table, e: Entry): (t': Table)
    ensures t'.Keys == t.Keys
  {
    map c | c in t :: if c in e.waiting then t[c].(number := OfferFor(t, e, c)) else t[c]
  }

  lemma OfferAt(t: Table, e: Entry, k: nat)
    requires Distinct(e.waiting) && k < |e.waiting|
    ensures OfferFor(t, e, e.waiting[k]) == if k < |Offered(t, e)| then Some(Offered(t, e)[k] as real) else None
  {
    if k < |Offered(t, e)| {
      assert e.waiting[k] == e.waiting[k];
    }
  }

  /** An offered number lies in the range, and no channel of the system is published under it. */
  lemma OfferIsFree(t: Table, e: Entry, c: nat)
    requires WellFormed(t, e) && OfferFor(t, e, c).Some?
    ensures exists n :: InRange(n, Start(e.rel), End(e.rel)) && OfferFor(t, e, c) == Some(n as real)
    ensures forall d :: d in t ==> Effective(t[d]) != OfferFor(t, e, c)
    ensures c in e.waiting
  {
    var nums := Offered(t, e);
    FreeNumbersAreFirst(Reserved(t, Waiting(e)), Start(e.rel), End(e.rel), |e.waiting|);
    var k: nat :| k < |nums| && e.waiting[k] == c && OfferFor(t, e, c) == Some(nums[k] as real);
    assert InRange(nums[k], Start(e.rel), End(e.rel)) && !Taken(Reserved(t, Waiting(e)), nums[k]);
    forall d | d in t && Effective(t[d]).Some?
      ensures Effective(t[d]).value in Reserved(t, Waiting(e))
    {
      EffectiveIsReserved(t, Waiting(e), d);
    }
  }

  lemma OffersAreDistinct(t: Table, e: Entry, c: nat, d: nat)
    requires c != d && OfferFor(t, e, c).Some?
    ensures OfferFor(t, e, c) != OfferFor(t, e, d)
  {
    var nums := Offered(t, e);
    FreeNumbersAreFirst(Reserved(t, Waiting(e)), Start(e.rel), End(e.rel), |e.waiting|);
    var k: nat :| k < |nums| && e.waiting[k] == c && OfferFor(t, e, c) == Some(nums[k] as real);
    if OfferFor(t, e, d).Some? {
      var l: nat :| l < |nums| && e.waiting[l] == d && OfferFor(t, e, d) == Some(nums[l] as real);
    }
  }

  /** A channel that stays without a number found none left: each number of the range is now reserved. */
  lemma UnservedMeansExhausted(t: Table, e: Entry, c: nat, m: int)
    requires WellFormed(t, e) && c in e.waiting && OfferFor(t, e, c).None?
    requires InRange(m, Start(e.rel), End(e.rel))
    ensures End(e.rel).Some? && Taken(Reserved(Assigned(t, e), {}), m)
  {
    var nums := Offered(t, e);
    var k :| 0 <= k < |e.waiting| && e.waiting[k] == c;
    OfferAt(t, e, k);
    FreeNumbersExhaust(Reserved(t, Waiting(e)), Start(e.rel), End(e.rel), |e.waiting|);
    var t' := Assigned(t, e);
    if Taken(Reserved(t, Waiting(e)), m) {
      if d :| d in t && t[d].pinned == Some(m as real) {
        assert t'[d].pinned == Some(m as real);
      } else {
        var d :| d in t && d !in Waiting(e) && t[d].number == Some(m as real);
        assert t'[d].number == Some(m as real);
      }
    } else {
      assert m in nums;
      var i :| 0 <= i < |nums| && nums[i] == m;
      OfferAt(t, e, i);
      assert e.waiting[i] in e.waiting;
      assert t'[e.waiting[i]].number == Some(m as real);
    }
  }

  /* Uniqueness is preserved */

  lemma AssignKeepsSettled(t: Table, e: Entry, c: nat)
    requires WellFormed(t, e) && c in t && t[c].pinned.None?
    requires Settled(t, c) || c in e.waiting
    ensures Settled(Assigned(t, e), c)
  {
    var t' := Assigned(t, e);
    forall d | d in t && d != c && t'[c].number.Some?
      ensures Effective(t'[d]) != t'[c].number
    {
      if c in e.waiting {
        OfferIsFree(t, e, c);
        OffersAreDistinct(t, e, c, d);
      } else if d in e.waiting && OfferFor(t, e, d).Some? {
        OfferIsFree(t, e, d);
      }
    }
  }

  /** Entries served one after the other; their channels are disjoint. */
  ghost predicate Serves(t: Table, entries: seq<Entry>) {
    && (forall i :: 0 <= i < |entries| ==> WellFormed(t, entries[i]))
    && forall i, j :: 0 <= i < j < |entries| ==> Waiting(entries[i]) !! Waiting(entries[j])
  }

  ghost function AssignedAll(t: Table, entries: seq<Entry>): (t': Table)
    ensures t'.Keys == t.Keys
    ensures forall c :: c in t ==> t'[c].(number := t[c].number) == t[c]
  {
    if entries == [] then t else AssignedAll(Assigned(t, entries[0]), entries[1..])
  }

  lemma ServesRest(t: Table, entries: seq<Entry>)
    requires Serves(t, entries) && entries != []
    ensures Serves(Assigned(t, entries[0]), entries[1..])
  {
    forall i | 0 <= i < |entries[1..]|
      ensures WellFormed(Assigned(t, entries[0]), entries[1..][i])
    {
      assert entries[1..][i] == entries[i + 1];
      assert WellFormed(t, entries[i + 1]);
      assert Waiting(entries[0]) !! Waiting(entries[i + 1]);
      forall c | c in entries[i + 1].waiting
        ensures c !in entries[0].waiting
      {
        assert c in Waiting(entries[i + 1]);
        assert c !in Waiting(entries[0]);
      }
    }
  }

  lemma {:induction false} AssignedAllAppend(t: Table, entries: seq<Entry>, e: Entry)
    ensures AssignedAll(t, entries + [e]) == Assigned(AssignedAll(t, entries), e)
    decreases |entries|
  {
    if entries == [] {
      assert entries + [e] == [e];
      assert AssignedAll(Assigned(t, e), []) == Assigned(t, e);
    } else {
      assert (entries + [e])[1..] == entries[1..] + [e];
      AssignedAllAppend(Assigned(t, entries[0]), entries[1..], e);
    }
  }

  /** What the entries do not mention stays. */
  lemma {:induction false} AssignedAllElsewhere(t: Table, entries: seq<Entry>, c: nat)
    requires c in t && forall i :: 0 <= i < |entries| ==> c !in entries[i].waiting
    ensures AssignedAll(t, entries)[c] == t[c]
    decreases |entries|
  {
    if entries != [] {
      AssignedAllElsewhere(Assigned(t, entries[0]), entries[1..], c);
    }
  }

  lemma {:induction false} AssignAllKeepsSettled(t: Table, entries: seq<Entry>, c: nat)
    requires Serves(t, entries) && Settled(t, c)
    ensures Settled(AssignedAll(t, entries), c)
    decreases |entries|
  {
    if entries != [] {
      AssignKeepsSettled(t, entries[0], c);
      ServesRest(t, entries);
      AssignAllKeepsSettled(Assigned(t, entries[0]), entries[1..], c);
    }
  }

  /** The incremental assignment is safe: it changes only numbers, only of channels that wait for
      one, and what it gives is a whole number of the range under which no other channel of the
      system is published. */
  lemma {:induction false} AssignAllIsSafe(t: Table, entries: seq<Entry>, c: nat)
    requires Serves(t, entries) && c in t
    ensures var t' := AssignedAll(t, entries);
      t'[c] != t[c] ==>
        && (exists i :: 0 <= i < |entries| && c in entries[i].waiting && GivenInRange(t', c, entries[i].rel))
        && t[c].number.None? && Settled(t', c)
    decreases |entries|
  {
    if entries != [] {
      var t1 := Assigned(t, entries[0]);
      ServesRest(t, entries);
      AssignAllIsSafe(t1, entries[1..], c);
      var t' := AssignedAll(t1, entries[1..]);
      if t1[c] != t[c] {
        OfferIsFree(t, entries[0], c);
        AssignKeepsSettled(t, entries[0], c);
        AssignAllKeepsSettled(t1, entries[1..], c);
        assert t'[c] == t1[c];
        assert GivenInRange(t', c, entries[0].rel);
      } else if t'[c] != t1[c] {
        var i :| 0 <= i < |entries[1..]| && c in entries[1..][i].waiting && GivenInRange(t', c, entries[1..][i].rel);
        assert entries[i + 1] == entries[1..][i];
      }
    }
  }

  ghost predicate GivenInRange(t: Table, c: nat, rel: Relation)
    requires c in t
  {
    exists n :: InRange(n, Start(rel), End(rel)) && t[c].number == Some(n as real)
  }

  /* Hiding */

  predicate Releases(ch: Channel, rels: seq<Relation>) {
    !ch.hidden && ch.number.Some? && RelationOf(rels, ch).Some? && RelationOf(rels, ch).value.compact
  }

  /** Channels are hidden; those of compact groups give their number back. */
  function Hidden(t: Table, rels: seq<Relation>, ids: set<nat>): (t': Table)
    ensures t'.Keys == t.Keys
  {
    map c | c in t :: if c !in ids then t[c]
                      else if Releases(t[c], rels) then t[c].(hidden := true, number := None)
                      else t[c].(hidden := true)
  }

  /** Hiding sets the flag.  A channel that was visible and had a number loses it exactly when the relation
      that decides is compact: the account's first for the channel's group, or, if it has none, the
      account's first whose override names that group.  Nothing else of any channel changes. */
  lemma HiddenReleases(t: Table, rels: seq<Relation>, ids: set<nat>, c: nat)
    requires c in t
    ensures var ch, after := t[c], Hidden(t, rels, ids)[c];
      if c !in ids then after == ch
      else
        after.hidden && after == ch.(hidden := true, number := after.number) &&
        after.number ==
          if !ch.hidden && ch.autoCreated && ch.account.Some? && ch.group.Some? &&
             exists i :: 0 <= i < |rels| && rels[i].compact && rels[i].account == ch.account.value &&
               if exists r :: r in rels && r.account == ch.account.value && r.group == ch.group.value
               then rels[i].group == ch.group.value
                    && forall j :: 0 <= j < i ==> !(rels[j].account == ch.account.value && rels[j].group == ch.group.value)
               else rels[i].groupOverride == ch.group
                    && forall j :: 0 <= j < i ==> !(rels[j].account == ch.account.value && rels[j].groupOverride == ch.group)
          then None else ch.number
  {
    var ch := t[c];
    if ch.account.Some? && ch.group.Some? {
      var i := DirectIsFirst(rels, ch.account.value, ch.group.value);
      var j := OverridingIsFirst(rels, ch.account.value, ch.group.value);
    }
  }

  function Shown(t: Table, ids: set<nat>): (t': Table)
    ensures t'.Keys == t.Keys
  {
    map c | c in t :: if c in ids then t[c].(hidden := false) else t[c]
  }

  /** Unhiding clears the flag of the channels shown, keeps every number there is, and gives new ones of the
      range only to channels that wait, each to itself. */
  lemma UnhideIsSafe(t: Table, shown: set<nat>, entries: seq<Entry>, c: nat)
    requires Serves(Shown(t, shown), entries) && c in t
    ensures var after := AssignedAll(Shown(t, shown), entries);
      && after[c] == t[c].(hidden := t[c].hidden && c !in shown, number := after[c].number)
      && (t[c].number.Some? ==> after[c].number == t[c].number)
      && (t[c].number.None? && after[c].number.Some? ==>
            Settled(after, c) && exists i :: 0 <= i < |entries| && c in entries[i].waiting && GivenInRange(after, c, entries[i].rel))
  {
    AssignAllIsSafe(Shown(t, shown), entries, c);
  }

  /* Runs */

  datatype Step =
    | Hide(ids: set<nat>, rels: seq<Relation>)
    | Unhide(shown: set<nat>, entries: seq<Entry>)
    | RepackGroup(rel: Relation)

  ghost predicate Enabled(t: Table, s: Step) {
    s.Unhide? ==> Serves(Shown(t, s.shown), s.entries)
  }

  ghost function After(t: Table, s: Step): (t': Table)
    ensures t'.Keys == t.Keys
  {
    match s
    case Hide(ids, rels) => Hidden(t, rels, ids)
    case Unhide(ids, entries) => AssignedAll(Shown(t, ids), entries)
    case RepackGroup(rel) => Repacked(t, rel)
  }

  ghost predicate IsRun(t: Table, steps: seq<Step>) {
    steps == [] || (Enabled(t, steps[0]) && IsRun(After(t, steps[0]), steps[1..]))
  }

  ghost function AfterRun(t: Table, steps: seq<Step>): Table {
    if steps == [] then t else AfterRun(After(t, steps[0]), steps[1..])
  }

  lemma StepKeepsSettled(t: Table, s: Step, c: nat)
    requires Enabled(t, s) && Settled(t, c)
    ensures Settled(After(t, s), c)
  {
    match s
    case Hide(ids, rels) =>
    case Unhide(ids, entries) =>
      assert Settled(Shown(t, ids), c);
      AssignAllKeepsSettled(Shown(t, ids), entries, c);
    case RepackGroup(rel) =>
      RepackKeepsSettled(t, rel, c);
  }

  /** System-wide uniqueness survives any sequence of hide, unhide and repack steps. */
  lemma {:induction false} RunKeepsSettled(t: Table, steps: seq<Step>, c: nat)
    requires IsRun(t, steps) && Settled(t, c)
    ensures Settled(AfterRun(t, steps), c)
    decreases |steps|
  {
    if steps != [] {
      StepKeepsSettled(t, steps[0], c);
      RunKeepsSettled(After(t, steps[0]), steps[1..], c);
    }
  }

  /** No step moves a channel to another group or changes its override. */
  lemma StepKeepsMember(t: Table, s: Step, rel: Relation, c: nat)
    requires Enabled(t, s) && c in Members(t, rel) && t[c].pinned.None?
    ensures c in Members(After(t, s), rel) && After(t, s)[c].pinned.None?
  {
  }

  /** A group that was repacked at any point of a run has unique numbers at its end. */
  lemma {:induction false} RunSettlesRepacked(t: Table, steps: seq<Step>, i: nat, c: nat)
    requires IsRun(t, steps) && i < |steps| && steps[i].RepackGroup?
    requires c in Members(t, steps[i].rel) && t[c].pinned.None?
    ensures Settled(AfterRun(t, steps), c)
    decreases |steps|
  {
    if i == 0 {
      RepackSettlesMembers(t, steps[0].rel, c);
      RunKeepsSettled(After(t, steps[0]), steps[1..], c);
    } else {
      assert steps[1..][i - 1] == steps[i];
      StepKeepsMember(t, steps[0], steps[i].rel, c);
      RunSettlesRepacked(After(t, steps[0]), steps[1..], i - 1, c);
    }
  }

  /* What the incremental assignment selects */

  /** The channel waits for a number of the compact relation its account and group resolve to. */
  predicate WaitsFor(rels: seq<Relation>, ch: Channel, rel: Relation) {
    Eligible(ch) && Resolve(rels, ch.account.value, ch.group) == Some(rel) && rel.compact
  }

  /** Which channels wait, and for which relation: visible channels made by an account's sync, with no number
      of their own or of an override, wait for the account's relation for their own group; if it has none,
      for its last relation whose override names the group; and only if that relation is compact. */
  lemma WaitsForExactly(rels: seq<Relation>, ch: Channel, rel: Relation)
    ensures WaitsFor(rels, ch, rel) <==>
      && ch.autoCreated && !ch.hidden && ch.number == None && ch.pinned == None && ch.account.Some? && ch.group.Some?
      && rel.compact && rel.account == ch.account.value
      && exists i :: 0 <= i < |rels| && rels[i] == rel &&
           if exists r :: r in rels && r.account == ch.account.value && r.group == ch.group.value
           then rel.group == ch.group.value
                && forall j :: 0 <= j < i ==> !(rels[j].account == rel.account && rels[j].group == rel.group)
           else rel.groupOverride == ch.group
                && forall j :: i < j < |rels| ==> !(rels[j].account == rel.account && rels[j].groupOverride == ch.group)
  {
    if ch.account.Some? && ch.group.Some? {
      var i := DirectIsFirst(rels, ch.account.value, ch.group.value);
      var j := OverridingIsLast(rels, ch.account.value, ch.group.value);
    }
  }

  /** Where all matching relations are compact, such a channel waits for one exactly when some relation of
      the account has its group or an override that names it. */
  lemma WaitsUnlessUnmatched(rels: seq<Relation>, ch: Channel)
    requires ch.autoCreated && !ch.hidden && ch.number == None && ch.pinned == None && ch.account.Some? && ch.group.Some?
    requires forall r :: r in rels && r.account == ch.account.value && (r.group == ch.group.value || r.groupOverride == ch.group) ==> r.compact
    ensures (exists rel :: WaitsFor(rels, ch, rel)) <==>
      exists r :: r in rels && r.account == ch.account.value && (r.group == ch.group.value || r.groupOverride == ch.group)
  {
    var resolved := Resolve(rels, ch.account.value, ch.group);
    var i := DirectIsFirst(rels, ch.account.value, ch.group.value);
    var j := OverridingIsLast(rels, ch.account.value, ch.group.value);
    if resolved.Some? {
      assert resolved.value in rels && WaitsFor(rels, ch, resolved.value);
    }
  }

  /** All channels of one account and group that wait, served together. */
  ghost predicate Selects(t: Table, ids: set<nat>, rels: seq<Relation>, e: Entry) {
    && Distinct(e.waiting) && e.waiting != []
    && (forall c :: c in e.waiting ==> c in ids && c in t && WaitsFor(rels, t[c], e.rel))
    && (forall c, d :: c in e.waiting && d in e.waiting ==> t[c].group == t[d].group)
  }

  lemma SelectedIsWellFormed(t: Table, ids: set<nat>, rels: seq<Relation>, e: Entry, t': Table)
    requires Selects(t, ids, rels, e) && t'.Keys == t.Keys && forall c :: c in e.waiting && c in t ==> t'[c] == t[c]
    ensures WellFormed(t', e)
  {
    forall c | c in e.waiting
      ensures c in t' && Eligible(t'[c]) && IsMember(t'[c], e.rel)
    {
      assert c in t && WaitsFor(rels, t[c], e.rel);
      ResolvedIsMember(rels, t[c]);
    }
  }

  lemma ServesAppend(t: Table, entries: seq<Entry>, e: Entry)
    requires Serves(t, entries) && WellFormed(t, e)
    requires forall i, c :: 0 <= i < |entries| && c in e.waiting ==> c !in entries[i].waiting
    ensures Serves(t, entries + [e])
  {
    var longer := entries + [e];
    forall i, j | 0 <= i < j < |longer|
      ensures Waiting(longer[i]) !! Waiting(longer[j])
    {
      if j < |entries| {
        assert Waiting(entries[i]) !! Waiting(entries[j]);
      } else {
        assert longer[j] == e && longer[i] == entries[i];
      }
    }
  }

  /** A channel waits for one relation only, so entries of different relations share no channel. */
  lemma SelectedOnce(t: Table, ids: set<nat>, rels: seq<Relation>, e: Entry, f: Entry, c: nat)
    requires Selects(t, ids, rels, e) && Selects(t, ids, rels, f) && c in e.waiting && c in f.waiting
    ensures e.rel == f.rel
  {
    assert WaitsFor(rels, t[c], e.rel) && WaitsFor(rels, t[c], f.rel);
  }

  /** All whole numbers of the range are reserved. */
  ghost predicate Exhausted(t: Table, rel: Relation) {
    End(rel).Some? && forall m :: InRange(m, Start(rel), End(rel)) ==> Taken(Reserved(t, {}), m)
  }

  lemma AssignKeepsExhausted(t: Table, e: Entry, rel: Relation)
    requires WellFormed(t, e) && Exhausted(t, rel)
    ensures Exhausted(Assigned(t, e), rel)
  {
    var t' := Assigned(t, e);
    forall x | x in Reserved(t, {})
      ensures x in Reserved(t', {})
    {
      if d :| d in t && t[d].pinned == Some(x) {
        assert t'[d].pinned == Some(x);
      } else {
        var d :| d in t && t[d].number == Some(x);
        assert t'[d].number == Some(x);
      }
    }
  }

  lemma UnservedExhausts(t: Table, e: Entry, c: nat)
    requires WellFormed(t, e) && c in e.waiting && OfferFor(t, e, c).None?
    ensures Exhausted(Assigned(t, e), e.rel)
  {
    var k :| 0 <= k < |e.waiting| && e.waiting[k] == c;
    OfferAt(t, e, k);
    FreeNumbersExhaust(Reserved(t, Waiting(e)), Start(e.rel), End(e.rel), |e.waiting|);
    forall m | InRange(m, Start(e.rel), End(e.rel))
      ensures Taken(Reserved(Assigned(t, e), {}), m)
    {
      UnservedMeansExhausted(t, e, c, m);
    }
  }
}
