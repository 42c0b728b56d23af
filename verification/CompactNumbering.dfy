/** apps/channels/compact_numbering.py: the loops that pack a group and serve unhidden channels. */
module CompactNumbering {
  import opened Options
  import opened Sets
  import opened Channels
  import opened Allocation
  import opened Repack
  import opened Assign

  datatype Counts = Counts(packed: nat, released: nat, failed: nat)

  class ChannelTable {
    var channels: Table
    /** Rows written by bulk updates so far. */
    var rowsWritten: nat

    constructor (t: Table)
      ensures channels == t && rowsWritten == 0
    {
      channels, rowsWritten := t, 0;
    }

    /** The numbers claimed system-wide, within the bounds. */
    method BuildReservedSet(excluded: set<nat>, start: int, end: Option<int>) returns (reserved: set<real>)
      ensures reserved == ReservedWithin(channels, excluded, start, end)
    {
      reserved := {};
      var todo := channels.Keys;
      ghost var done: set<nat> := {};
      while todo != {}
        invariant todo !! done && todo + done == channels.Keys
        invariant forall x :: x in reserved <==> Within(x, start, end) && exists c :: c in done && Claims(channels[c], c in excluded, x)
      {
        var c :| c in todo;
        var ch := channels[c];
        ghost var reserved0 := reserved;
        if ch.pinned.Some? && Within(ch.pinned.value, start, end) {
          reserved := reserved + {ch.pinned.value};
        }
        if c !in excluded && ch.number.Some? && Within(ch.number.value, start, end) {
          reserved := reserved + {ch.number.value};
        }
        assert forall x :: x in reserved <==> x in reserved0 || (Within(x, start, end) && Claims(ch, c in excluded, x));
        todo, done := todo - {c}, done + {c};
      }
      assert done == channels.Keys;
      ReservedIsClaimed(excluded, start, end, reserved);
    }

    lemma ReservedIsClaimed(excluded: set<nat>, start: int, end: Option<int>, reserved: set<real>)
      requires forall x :: x in reserved <==> Within(x, start, end) && exists c :: c in channels && Claims(channels[c], c in excluded, x)
      ensures reserved == ReservedWithin(channels, excluded, start, end)
    {
      forall x
        ensures x in reserved <==> x in ReservedWithin(channels, excluded, start, end)
      {
        assert x in Reserved(channels, excluded) <==> exists c :: c in channels && Claims(channels[c], c in excluded, x);
      }
    }

    static predicate Within(x: real, start: int, end: Option<int>) {
      start as real <= x && (end.Some? ==> x <= end.value as real)
    }

    static ghost predicate Claims(ch: Channel, excluded: bool, x: real) {
      ch.pinned == Some(x) || (!excluded && ch.number == Some(x))
    }

    static ghost predicate Updated(t: Table, t': Table, updates: map<nat, Option<real>>) {
      t'.Keys == t.Keys && forall c :: c in t ==> t'[c] == if c in updates then t[c].(number := updates[c]) else t[c]
    }

    static ghost predicate Cleared(t: Table, t': Table, ids: set<nat>) {
      t'.Keys == t.Keys && forall c :: c in t ==> t'[c] == if c in ids then t[c].(number := None) else t[c]
    }

    /** Writes the given numbers in one go. */
    method BulkUpdate(updates: map<nat, Option<real>>)
      requires updates.Keys <= channels.Keys
      modifies this
      ensures Updated(old(channels), channels, updates)
      ensures rowsWritten == old(rowsWritten) + |updates|
    {
      channels := map c | c in channels :: if c in updates then channels[c].(number := updates[c]) else channels[c];
      rowsWritten := rowsWritten + |updates|;
    }

    /** The channel of the set that is packed first. */
    method PickFirst(rel: Relation, ids: set<nat>) returns (m: nat)
      requires ids != {} && ids <= channels.Keys
      ensures m == First(channels, rel, ids)
    {
      m :| m in ids;
      var todo := ids - {m};
      while todo != {}
        invariant todo <= ids && m in ids && m !in todo
        invariant forall c :: c in ids && c !in todo && c != m ==> Before(channels, rel, m, c)
      {
        var c :| c in todo;
        ghost var m0 := m;
        if Before(channels, rel, c, m) {
          m := c;
        }
        forall d | d in ids && d !in todo - {c} && d != m
          ensures Before(channels, rel, m, d)
        {
          BeforeIsStrictTotal(channels, rel, c, m0, d);
        }
        todo := todo - {c};
      }
      FirstIsUnique(channels, rel, ids, m);
    }

    /** The visible channels in the configured order. */
    method SortVisible(rel: Relation, ids: set<nat>) returns (order: seq<nat>)
      requires ids <= channels.Keys
      ensures order == InOrder(channels, rel, ids)
    {
      order := [];
      var todo := ids;
      while todo != {}
        invariant todo <= ids
        invariant order + InOrder(channels, rel, todo) == InOrder(channels, rel, ids)
      {
        var m := PickFirst(rel, todo);
        SortStep(channels, rel, order, todo, InOrder(channels, rel, ids));
        order := order + [m];
        todo := todo - {m};
      }
    }

    static lemma SortStep(t: Table, rel: Relation, order: seq<nat>, todo: set<nat>, all: seq<nat>)
      requires todo != {} && todo <= t.Keys && order + InOrder(t, rel, todo) == all
      ensures order + [First(t, rel, todo)] + InOrder(t, rel, todo - {First(t, rel, todo)}) == all
    {
      var m := First(t, rel, todo);
      var rest := InOrder(t, rel, todo - {m});
      assert InOrder(t, rel, todo) == [m] + rest;
      assert order + ([m] + rest) == order + [m] + rest;
    }

    /** Splits the members of a group: visible, hidden and pinned. */
    method Partition(rel: Relation) returns (visible: set<nat>, hidden: set<nat>, pinned: set<nat>)
      ensures visible == Visible(channels, rel)
      ensures hidden == HiddenMembers(channels, rel) && pinned == PinnedMembers(channels, rel)
    {
      visible, hidden, pinned := {}, {}, {};
      var todo := channels.Keys;
      while todo != {}
        invariant todo <= channels.Keys
        invariant visible == set c | c in channels && c !in todo && IsMember(channels[c], rel) && channels[c].pinned.None? && !channels[c].hidden
        invariant hidden == set c | c in channels && c !in todo && IsMember(channels[c], rel) && channels[c].pinned.None? && channels[c].hidden
        invariant pinned == set c | c in channels && c !in todo && IsMember(channels[c], rel) && channels[c].pinned.Some?
      {
        var c :| c in todo;
        if IsMember(channels[c], rel) {
          if channels[c].pinned.Some? {
            pinned := pinned + {c};
          } else if channels[c].hidden {
            hidden := hidden + {c};
          } else {
            visible := visible + {c};
          }
        }
        todo := todo - {c};
      }
    }

    /** Clears the number of every channel of the set that has one. */
    method ClearNumbers(ids: set<nat>) returns (cleared: nat)
      requires ids <= channels.Keys
      modifies this
      ensures Cleared(old(channels), channels, ids)
      ensures cleared == |Numbered(old(channels), ids)|
      ensures rowsWritten == old(rowsWritten) + cleared
    {
      var updates: map<nat, Option<real>> := map c | c in ids && channels[c].number.Some? :: None;
      assert updates.Keys == Numbered(channels, ids);
      cleared := |updates|;
      BulkUpdate(updates);
    }

    /** The pack loop: numbers the channels of `order` one after the other, from `start` each time. */
    method PackVisible(order: seq<nat>, reserved0: set<real>, start: int, end: Option<int>)
      returns (updates: map<nat, Option<real>>, packed: nat, failed: nat)
      requires Distinct(order) && forall c :: c in order ==> c in channels
      ensures var nums := FreeNumbers(reserved0, start, end, |order|);
        && packed == |nums| && failed == |order| - |nums|
        && (forall c :: c in updates ==> c in order)
        && forall k: nat :: k < |order| ==> Outcome(updates, channels[order[k]], order[k], nums, k)
    {
      ghost var nums := FreeNumbers(reserved0, start, end, |order|);
      var reserved := reserved0;
      updates, packed, failed := map[], 0, 0;
      var i := 0;
      while i < |order|
        invariant i <= |order| && packed + failed == i
        invariant packed == if i < |nums| then i else |nums|
        invariant reserved == WithGiven(reserved0, nums, packed)
        invariant Planned(channels, order, nums, i, updates)
      {
        var c, ch := order[i], channels[order[i]];
        NextAfterGiven(reserved0, start, end, |order|, packed);
        var next := NextAvailableNumber(reserved, start, end);
        PlanNext(channels, order, nums, i, updates);
        if packed < |nums| {
          GivenOneMore(reserved0, nums, packed);
        }
        if next.None? {
          failed := failed + 1;
          if ch.number.Some? {
            updates := updates[c := None];
          }
        } else {
          if ch.number != Some(next.value as real) {
            updates := updates[c := Some(next.value as real)];
          }
          reserved := reserved + {next.value as real};
          packed := packed + 1;
        }
        i := i + 1;
      }
    }

    /** The updates for the first `i` channels. */
    static ghost predicate Planned(t: Table, order: seq<nat>, nums: seq<int>, i: nat, updates: map<nat, Option<real>>)
      requires i <= |order| && forall c :: c in order ==> c in t
    {
      && (forall c :: c in updates ==> exists k: nat :: k < i && order[k] == c)
      && (forall k: nat :: k < i ==> Outcome(updates, t[order[k]], order[k], nums, k))
    }

    static lemma PlanNext(t: Table, order: seq<nat>, nums: seq<int>, i: nat, updates: map<nat, Option<real>>)
      requires Distinct(order) && (forall c :: c in order ==> c in t) && i < |order| && Planned(t, order, nums, i, updates)
      ensures var c, number := order[i], if i < |nums| then Some(nums[i] as real) else None;
        Planned(t, order, nums, i + 1, if t[c].number == number then updates else updates[c := number])
    {
      var c, number := order[i], if i < |nums| then Some(nums[i] as real) else None;
      var updates' := if t[c].number == number then updates else updates[c := number];
      assert c !in updates;
      forall k: nat | k < i
        ensures Outcome(updates', t[order[k]], order[k], nums, k)
      {
        assert Outcome(updates, t[order[k]], order[k], nums, k);
      }
      forall d | d in updates'
        ensures exists k: nat :: k < i + 1 && order[k] == d
      {
        assert d == c ==> order[i] == d;
      }
    }

    /** The k-th channel is to get the k-th number, or none; it is updated only when that is a change. */
    static ghost predicate Outcome(updates: map<nat, Option<real>>, ch: Channel, c: nat, nums: seq<int>, k: nat) {
      var number := if k < |nums| then Some(nums[k] as real) else None;
      if ch.number == number then c !in updates else c in updates && updates[c] == number
    }

    /** Sorts the visible channels, reserves and packs; nothing is written yet. */
    method PlanPack(rel: Relation, visible: set<nat>, members: set<nat>)
      returns (updates: map<nat, Option<real>>, packed: nat, failed: nat)
      requires visible == Visible(channels, rel) && members == Members(channels, rel)
      ensures PackUpdates(channels, rel, updates)
      ensures packed == |Numbers(channels, rel)| && packed + failed == |visible|
    {
      var order := SortVisible(rel, visible);
      var reserved := BuildReservedSet(members, Start(rel), End(rel));
      ScopedReservationsSuffice(channels, members, Start(rel), End(rel), |order|);
      OrderIsDistinct(channels, rel);
      updates, packed, failed := PackVisible(order, reserved, Start(rel), End(rel));
      UpdatesAreVisible(channels, rel, updates);
    }

    /** Renumbers the group: packs the visible channels, releases the hidden ones and clears the
        own numbers of the pinned ones. */
    method RepackGroup(rel: Relation) returns (r: Counts)
      modifies this
      ensures channels == Repacked(old(channels), rel)
      ensures r.packed == |Numbers(old(channels), rel)|
      ensures r.packed + r.failed == |Visible(old(channels), rel)|
      ensures r.released == |Numbered(old(channels), HiddenMembers(old(channels), rel))|
      ensures rowsWritten == old(rowsWritten) + |Changed(old(channels), rel)|
    {
      ghost var t := channels;
      var visible, hidden, pinned := Partition(rel);
      assert visible + hidden + pinned == Members(t, rel);
      var updates, packed, failed := PlanPack(rel, visible, visible + hidden + pinned);
      BulkUpdate(updates);
      ghost var t1 := channels;
      var released := ClearNumbers(hidden);
      ghost var t2 := channels;
      var unpinned := ClearNumbers(pinned);
      r := Counts(packed, released, failed);
      UpdatesRepack(t, rel, updates, t1, t2, channels);
      WrittenIsChanged(t, rel, updates);
    }

    static lemma OrderIsDistinct(t: Table, rel: Relation)
      ensures Distinct(VisibleOrder(t, rel)) && forall c :: c in VisibleOrder(t, rel) ==> c in t
    {
      var order := VisibleOrder(t, rel);
      forall i, j | 0 <= i < j < |order|
        ensures order[i] != order[j]
      {
        BeforeIsStrictTotal(t, rel, order[i], order[j], order[i]);
      }
    }

    /** The pack loop's updates are the changes of the visible channels. */
    static lemma UpdatesAreVisible(t: Table, rel: Relation, updates: map<nat, Option<real>>)
      requires var order, nums := VisibleOrder(t, rel), Numbers(t, rel);
        && (forall c :: c in updates ==> c in order)
        && (forall c :: c in order ==> c in t)
        && forall k: nat :: k < |order| ==> Outcome(updates, t[order[k]], order[k], nums, k)
      ensures PackUpdates(t, rel, updates)
    {
      var order := VisibleOrder(t, rel);
      forall c | c in Visible(t, rel)
        ensures if t[c].number == NumberFor(t, rel, c) then c !in updates else c in updates && updates[c] == NumberFor(t, rel, c)
      {
        assert c in order;
        var k: nat :| k < |order| && order[k] == c;
        NumberAt(t, rel, k);
        assert Outcome(updates, t[order[k]], order[k], Numbers(t, rel), k);
      }
    }

    /** The updates of a repack: what the pack loop found to change in the visible channels. */
    static ghost predicate PackUpdates(t: Table, rel: Relation, updates: map<nat, Option<real>>) {
      && updates.Keys <= Visible(t, rel)
      && forall c :: c in Visible(t, rel) ==>
           if t[c].number == NumberFor(t, rel, c) then c !in updates else c in updates && updates[c] == NumberFor(t, rel, c)
    }

    static ghost function HiddenMembers(t: Table, rel: Relation): set<nat> {
      set c | c in t && IsMember(t[c], rel) && t[c].pinned.None? && t[c].hidden
    }

    /** Which channels the released count is about, field by field. */
    static lemma ReleasedExactly(t: Table, rel: Relation, c: nat)
      ensures c in Numbered(t, HiddenMembers(t, rel)) <==>
        && c in t && t[c].hidden && t[c].pinned == None && t[c].number != None
        && t[c].autoCreated && t[c].account == Some(rel.account) && t[c].group != None
        && (t[c].group == Some(rel.group) || t[c].group == rel.groupOverride)
    {
    }

    static ghost function PinnedMembers(t: Table, rel: Relation): set<nat> {
      set c | c in t && IsMember(t[c], rel) && t[c].pinned.Some?
    }

    static lemma UpdatesRepack(t: Table, rel: Relation, updates: map<nat, Option<real>>, t1: Table, t2: Table, t3: Table)
      requires PackUpdates(t, rel, updates) && Updated(t, t1, updates)
      requires Cleared(t1, t2, HiddenMembers(t, rel)) && Cleared(t2, t3, PinnedMembers(t, rel))
      ensures t3 == Repacked(t, rel)
      ensures Numbered(t1, HiddenMembers(t, rel)) == Numbered(t, HiddenMembers(t, rel))
      ensures Numbered(t2, PinnedMembers(t, rel)) == Numbered(t, PinnedMembers(t, rel))
    {
      KindsAreDisjoint(t, rel);
      forall c | c in t
        ensures t3[c] == Repacked(t, rel)[c]
      {
        if c !in Visible(t, rel) {
          OnlyVisibleNumbered(t, rel, c);
        }
      }
    }

    static ghost function Numbered(t: Table, ids: set<nat>): set<nat> {
      set c | c in ids && c in t && t[c].number.Some?
    }

    static lemma ChangedWhen(t: Table, rel: Relation, updates: map<nat, Option<real>>, c: nat)
      requires PackUpdates(t, rel, updates)
      ensures c in Changed(t, rel) <==>
        c in updates || c in Numbered(t, HiddenMembers(t, rel)) || c in Numbered(t, PinnedMembers(t, rel))
    {
      if c !in Visible(t, rel) {
        OnlyVisibleNumbered(t, rel, c);
      }
    }

    static lemma WrittenIsChanged(t: Table, rel: Relation, updates: map<nat, Option<real>>)
      requires PackUpdates(t, rel, updates)
      ensures |updates.Keys| + |Numbered(t, HiddenMembers(t, rel))| + |Numbered(t, PinnedMembers(t, rel))| == |Changed(t, rel)|
    {
      forall c
        ensures c in Changed(t, rel) <==>
          c in updates.Keys || c in Numbered(t, HiddenMembers(t, rel)) || c in Numbered(t, PinnedMembers(t, rel))
      {
        ChangedWhen(t, rel, updates, c);
      }
      KindsAreDisjoint(t, rel);
      DisjointSizes(updates.Keys, Numbered(t, HiddenMembers(t, rel)), Numbered(t, PinnedMembers(t, rel)), Changed(t, rel));
    }

    static lemma KindsAreDisjoint(t: Table, rel: Relation)
      ensures Visible(t, rel) !! HiddenMembers(t, rel) && Visible(t, rel) !! PinnedMembers(t, rel)
      ensures HiddenMembers(t, rel) !! PinnedMembers(t, rel)
    {
    }

    static lemma DisjointSizes(a: set<nat>, b: set<nat>, d: set<nat>, all: set<nat>)
      requires (forall c :: c in all <==> c in a || c in b || c in d) && a !! b && a !! d && b !! d
      ensures |a| + |b| + |d| == |all|
    {
      assert all == a + b + d;
    }

    /* The incremental path */

    /** Offers the waiting channels of one group the free numbers in turn. */
    method ServeInTurn(e: Entry) returns (given: map<nat, Option<int>>, updates: map<nat, Option<real>>)
      requires Distinct(e.waiting)
      ensures InTurn(e.waiting, Offered(channels, e), |e.waiting|, given, updates)
    {
      var start, end := Start(e.rel), End(e.rel);
      var reserved := BuildReservedSet(Waiting(e), start, end);
      ScopedReservationsSuffice(channels, Waiting(e), start, end, |e.waiting|);
      ghost var reserved0, nums := reserved, FreeNumbers(reserved, start, end, |e.waiting|);
      updates, given := map[], map[];
      ghost var packed: nat := 0;
      var i := 0;
      while i < |e.waiting|
        invariant i <= |e.waiting| && packed == if i < |nums| then i else |nums|
        invariant reserved == WithGiven(reserved0, nums, packed)
        invariant InTurn(e.waiting, nums, i, given, updates)
      {
        var c := e.waiting[i];
        NextAfterGiven(reserved0, start, end, |e.waiting|, packed);
        var next := NextAvailableNumber(reserved, start, end);
        TurnTaken(e.waiting, nums, i, given, updates);
        if packed < |nums| {
          GivenOneMore(reserved0, nums, packed);
        }
        given := given[c := next];
        if next.Some? {
          reserved := reserved + {next.value as real};
          updates := updates[c := Some(next.value as real)];
          packed := packed + 1;
        }
        i := i + 1;
      }
    }

    /** The first `i` waiting channels have been offered the numbers in turn. */
    static ghost predicate InTurn(waiting: seq<nat>, nums: seq<int>, i: nat, given: map<nat, Option<int>>, updates: map<nat, Option<real>>)
      requires i <= |waiting|
    {
      && (forall c :: c in given <==> c in waiting[..i])
      && (forall k: nat :: k < i ==> waiting[k] in given && given[waiting[k]] == Kth(nums, k))
      && (forall c :: c in updates <==> c in given && given[c].Some?)
      && (forall c :: c in updates ==> updates[c] == AsReal(given[c]))
    }

    static lemma TurnTaken(waiting: seq<nat>, nums: seq<int>, i: nat, given: map<nat, Option<int>>, updates: map<nat, Option<real>>)
      requires Distinct(waiting) && i < |waiting| && InTurn(waiting, nums, i, given, updates)
      ensures var c, next := waiting[i], Kth(nums, i);
        InTurn(waiting, nums, i + 1, given[c := next], if next.Some? then updates[c := AsReal(next)] else updates)
    {
      assert waiting[..i + 1] == waiting[..i] + [waiting[i]];
      assert waiting[i] !in waiting[..i];
    }

    static function Kth(nums: seq<int>, k: nat): Option<int> {
      if k < |nums| then Some(nums[k]) else None
    }

    /** Serves the waiting channels of one group and writes their numbers. */
    method AssignGroup(e: Entry) returns (given: map<nat, Option<int>>)
      requires WellFormed(channels, e)
      modifies this
      ensures channels == Assigned(old(channels), e)
      ensures forall c :: c in given <==> c in e.waiting
      ensures forall c :: c in given ==> AsReal(given[c]) == OfferFor(old(channels), e, c)
    {
      ghost var t := channels;
      var updates;
      given, updates := ServeInTurn(e);
      GivenIsOffered(t, e, given, updates);
      BulkUpdate(updates);
      UpdatesAssign(t, channels, e, given, updates);
    }

    static lemma GivenIsOffered(t: Table, e: Entry, given: map<nat, Option<int>>, updates: map<nat, Option<real>>)
      requires WellFormed(t, e) && InTurn(e.waiting, Offered(t, e), |e.waiting|, given, updates)
      ensures updates.Keys <= t.Keys && forall c :: c in given <==> c in e.waiting
      ensures forall c :: c in given ==> AsReal(given[c]) == OfferFor(t, e, c)
    {
      assert e.waiting[..|e.waiting|] == e.waiting;
      forall c | c in given
        ensures AsReal(given[c]) == OfferFor(t, e, c)
      {
        var k: nat :| k < |e.waiting| && e.waiting[k] == c;
        OfferAt(t, e, k);
      }
    }

    /** A waiting channel has no number, so one that is offered none need not be written. */
    static lemma UpdatesAssign(t: Table, t': Table, e: Entry, given: map<nat, Option<int>>, updates: map<nat, Option<real>>)
      requires WellFormed(t, e) && Updated(t, t', updates)
      requires (forall c :: c in given <==> c in e.waiting) && forall c :: c in given ==> AsReal(given[c]) == OfferFor(t, e, c)
      requires (forall c :: c in updates <==> c in given && given[c].Some?) && forall c :: c in updates ==> updates[c] == AsReal(given[c])
      ensures t' == Assigned(t, e)
    {
      forall c | c in t
        ensures t'[c] == Assigned(t, e)[c]
      {
        assert c in e.waiting ==> Eligible(t[c]);
      }
    }

    static function AsReal(n: Option<int>): Option<real> {
      if n.Some? then Some(n.value as real) else None
    }

    /** Collects the channels that wait by account and group. */
    method GroupByPair(ids: set<nat>) returns (byPair: map<(int, Option<int>), seq<nat>>)
      ensures forall p :: p in byPair ==> byPair[p] != [] && Distinct(byPair[p])
      ensures forall p, c :: p in byPair && c in byPair[p] ==>
        c in ids && c in channels && Eligible(channels[c]) && p == (channels[c].account.value, channels[c].group)
      ensures forall c :: c in ids && c in channels && Eligible(channels[c]) ==>
        (channels[c].account.value, channels[c].group) in byPair
        && c in byPair[(channels[c].account.value, channels[c].group)]
    {
      byPair := map[];
      var todo := ids * channels.Keys;
      while todo != {}
        invariant todo <= ids * channels.Keys
        invariant forall p :: p in byPair ==> byPair[p] != [] && Distinct(byPair[p])
        invariant forall p, c :: p in byPair && c in byPair[p] ==>
          c in ids && c in channels && c !in todo && Eligible(channels[c]) && p == (channels[c].account.value, channels[c].group)
        invariant forall c :: c in ids && c in channels && c !in todo && Eligible(channels[c]) ==>
          (channels[c].account.value, channels[c].group) in byPair
          && c in byPair[(channels[c].account.value, channels[c].group)]
      {
        var c :| c in todo;
        if Eligible(channels[c]) {
          var p := (channels[c].account.value, channels[c].group);
          byPair := byPair[p := (if p in byPair then byPair[p] else []) + [c]];
        }
        todo := todo - {c};
      }
    }

    /** Resolves each pair to its relation and keeps the compact ones; a later pair of the same
        relation replaces an earlier one. */
    method SelectEntries(ids: set<nat>, rels: seq<Relation>) returns (byRelation: map<int, Entry>)
      ensures forall r :: r in byRelation ==> byRelation[r].rel.id == r && Selects(channels, ids, rels, byRelation[r])
      ensures forall c, rel :: c in ids && c in channels && WaitsFor(rels, channels[c], rel) ==>
        rel.id in byRelation && (c in byRelation[rel.id].waiting || IsReplaced(channels, channels[c], byRelation[rel.id]))
    {
      var byPair := GroupByPair(ids);
      byRelation := map[];
      var todo := byPair.Keys;
      while todo != {}
        invariant todo <= byPair.Keys
        invariant forall r :: r in byRelation ==> byRelation[r].rel.id == r && Selects(channels, ids, rels, byRelation[r])
        invariant forall c, rel :: c in ids && c in channels && WaitsFor(rels, channels[c], rel) ==>
          (channels[c].account.value, channels[c].group) in todo
          || (rel.id in byRelation && (c in byRelation[rel.id].waiting || IsReplaced(channels, channels[c], byRelation[rel.id])))
      {
        var p :| p in todo;
        var resolved := Resolve(rels, p.0, p.1);
        if resolved.Some? && resolved.value.compact {
          var e := Entry(resolved.value, byPair[p]);
          assert Selects(channels, ids, rels, e);
          assert byPair[p][0] in e.waiting;
          forall ch: Channel | (ch.account, ch.group) != (Some(p.0), p.1)
            ensures IsReplaced(channels, ch, e)
          {
            assert byPair[p][0] in channels;
          }
          byRelation := byRelation[resolved.value.id := e];
        }
        todo := todo - {p};
      }
    }

    /** Another group of channels took the place of this channel's group under the same relation. */
    static ghost predicate IsReplaced(t: Table, ch: Channel, e: Entry) {
      exists d :: d in e.waiting && d in t && (t[d].account, t[d].group) != (ch.account, ch.group)
    }

    /** What the caller is told about a channel: the number it now has, or none because the account
        is busy or the range has no number left. */
    static ghost predicate Answered(t: Table, rels: seq<Relation>, busy: set<int>, t': Table, c: nat, answer: Option<int>) {
      && c in t && c in t' && AsReal(answer) == t'[c].number
      && (answer.None? ==> exists rel :: WaitsFor(rels, t[c], rel) && (rel.account in busy || Exhausted(t', rel)))
    }

    /** The entries served so far, all selected, none of a busy account, none of those still to come. */
    static ghost predicate Served(t: Table, ids: set<nat>, rels: seq<Relation>, busy: set<int>, entries: seq<Entry>, todo: set<int>) {
      && Serves(t, entries)
      && forall i :: 0 <= i < |entries| ==>
           Selects(t, ids, rels, entries[i]) && entries[i].rel.account !in busy && entries[i].rel.id !in todo
    }

    /** Assigns numbers to the channels among `ids` that wait for one, relation by relation; accounts
        whose lock is held elsewhere are deferred. */
    method AssignCompactNumbersForChannels(ids: set<nat>, rels: seq<Relation>, busy: set<int>)
      returns (results: map<nat, Option<int>>, ghost entries: seq<Entry>)
      modifies this
      ensures Served(old(channels), ids, rels, busy, entries, {})
      ensures channels == AssignedAll(old(channels), entries)
      ensures forall c :: c in results ==> c in ids && Answered(old(channels), rels, busy, channels, c, results[c])
      ensures forall c, rel :: c in ids && c in old(channels) && WaitsFor(rels, old(channels)[c], rel) ==>
        c in results || exists d :: d in results && d in old(channels) && IsRival(rels, old(channels)[c], old(channels)[d], rel)
    {
      ghost var t := channels;
      var byRelation := SelectEntries(ids, rels);
      results, entries := map[], [];
      var todo := byRelation.Keys;
      while todo != {}
        invariant Midway(t, ids, rels, busy, byRelation, todo, entries, channels, results)
      {
        ghost var some := Element(todo);
        var r :| r in todo;
        results, entries := ServeNext(t, ids, rels, busy, byRelation, todo, entries, results, r);
        todo := todo - {r};
      }
      AllAnswered(t, ids, rels, busy, byRelation, entries, channels, results);
    }

    /** With the relations in `todo` still to be served. */
    static ghost predicate Midway(t: Table, ids: set<nat>, rels: seq<Relation>, busy: set<int>, byRelation: map<int, Entry>,
                                  todo: set<int>, entries: seq<Entry>, t': Table, results: map<nat, Option<int>>) {
      && todo <= byRelation.Keys
      && (forall r :: r in byRelation ==> byRelation[r].rel.id == r && Selects(t, ids, rels, byRelation[r]))
      && Served(t, ids, rels, busy, entries, todo) && t' == AssignedAll(t, entries)
      && SoundAnswers(t, ids, rels, busy, t', results)
      && Unanswered(byRelation, todo, results)
    }

    static ghost predicate SoundAnswers(t: Table, ids: set<nat>, rels: seq<Relation>, busy: set<int>, t': Table, results: map<nat, Option<int>>) {
      forall c :: c in results ==> c in ids && Answered(t, rels, busy, t', c, results[c])
    }

    static ghost predicate Unanswered(byRelation: map<int, Entry>, todo: set<int>, results: map<nat, Option<int>>) {
      forall r, c :: r in byRelation && c in byRelation[r].waiting ==> (r in todo <==> c !in results)
    }

    static lemma AnswersJoin(t: Table, ids: set<nat>, rels: seq<Relation>, busy: set<int>, t': Table,
                             results: map<nat, Option<int>>, given: map<nat, Option<int>>)
      requires SoundAnswers(t, ids, rels, busy, t', results) && SoundAnswers(t, ids, rels, busy, t', given)
      ensures SoundAnswers(t, ids, rels, busy, t', results + given)
    {
    }

    static lemma NowAnswered(byRelation: map<int, Entry>, todo: set<int>, results: map<nat, Option<int>>, r: int, given: map<nat, Option<int>>)
      requires Unanswered(byRelation, todo, results) && r in todo && r in byRelation
      requires forall c :: c in given <==> c in byRelation[r].waiting
      requires forall q, c :: q in byRelation && q != r && c in byRelation[q].waiting ==> c !in byRelation[r].waiting
      ensures Unanswered(byRelation, todo - {r}, results + given)
    {
    }

    method ServeNext(ghost t: Table, ids: set<nat>, rels: seq<Relation>, busy: set<int>, byRelation: map<int, Entry>,
                     ghost todo: set<int>, ghost entries: seq<Entry>, results: map<nat, Option<int>>, r: int)
      returns (results': map<nat, Option<int>>, ghost entries': seq<Entry>)
      requires Midway(t, ids, rels, busy, byRelation, todo, entries, channels, results) && r in todo
      modifies this
      ensures Midway(t, ids, rels, busy, byRelation, todo - {r}, entries', channels, results')
    {
      var e := byRelation[r];
      NotYetServed(t, ids, rels, busy, entries, todo, e);
      if e.rel.account in busy {
        var deferred: map<nat, Option<int>> := map c | c in e.waiting :: None;
        DeferredMidway(t, ids, rels, busy, byRelation, todo, entries, channels, results, r, deferred);
        results' := results + deferred;
        entries' := entries;
      } else {
        ghost var t1 := channels;
        var given := AssignGroup(e);
        ServedMidway(t, ids, rels, busy, byRelation, todo, entries, t1, results, r, given);
        results' := results + given;
        entries' := entries + [e];
      }
    }

    static lemma DeferredMidway(t: Table, ids: set<nat>, rels: seq<Relation>, busy: set<int>, byRelation: map<int, Entry>,
                                todo: set<int>, entries: seq<Entry>, t': Table, results: map<nat, Option<int>>, r: int,
                                deferred: map<nat, Option<int>>)
      requires Midway(t, ids, rels, busy, byRelation, todo, entries, t', results) && r in todo
      requires byRelation[r].rel.account in busy && forall c :: c in byRelation[r].waiting <==> c in deferred
      requires forall c :: c in deferred ==> deferred[c] == None
      ensures Midway(t, ids, rels, busy, byRelation, todo - {r}, entries, t', results + deferred)
    {
      NotYetServed(t, ids, rels, busy, entries, todo, byRelation[r]);
      NoOtherWaits(t, ids, rels, byRelation, r);
      DeferredAnswers(t, ids, rels, busy, t', byRelation[r]);
      DeferringServes(t, ids, rels, busy, entries, todo, r);
      assert SoundAnswers(t, ids, rels, busy, t', deferred);
      AnswersJoin(t, ids, rels, busy, t', results, deferred);
      NowAnswered(byRelation, todo, results, r, deferred);
    }

    static lemma ServedMidway(t: Table, ids: set<nat>, rels: seq<Relation>, busy: set<int>, byRelation: map<int, Entry>,
                              todo: set<int>, entries: seq<Entry>, t1: Table, results: map<nat, Option<int>>, r: int,
                              given: map<nat, Option<int>>)
      requires Midway(t, ids, rels, busy, byRelation, todo, entries, t1, results) && r in todo
      requires byRelation[r].rel.account !in busy && forall c :: c in given <==> c in byRelation[r].waiting
      requires WellFormed(t1, byRelation[r])
      requires forall c :: c in given ==> AsReal(given[c]) == OfferFor(t1, byRelation[r], c)
      ensures Midway(t, ids, rels, busy, byRelation, todo - {r}, entries + [byRelation[r]], Assigned(t1, byRelation[r]), results + given)
    {
      var e := byRelation[r];
      NoOtherWaits(t, ids, rels, byRelation, r);
      NextServed(t, ids, rels, busy, entries, todo, e);
      AnswersStand(t, ids, rels, busy, t1, e, results);
      NewAnswers(t, ids, rels, busy, t1, e, given);
      AnswersJoin(t, ids, rels, busy, Assigned(t1, e), results, given);
      NowAnswered(byRelation, todo, results, r, given);
    }

    static lemma DeferringServes(t: Table, ids: set<nat>, rels: seq<Relation>, busy: set<int>, entries: seq<Entry>, todo: set<int>, r: int)
      requires Served(t, ids, rels, busy, entries, todo)
      ensures Served(t, ids, rels, busy, entries, todo - {r})
    {
    }

    static lemma AllAnswered(t: Table, ids: set<nat>, rels: seq<Relation>, busy: set<int>, byRelation: map<int, Entry>,
                             entries: seq<Entry>, t': Table, results: map<nat, Option<int>>)
      requires Midway(t, ids, rels, busy, byRelation, {}, entries, t', results)
      requires forall c, rel :: c in ids && c in t && WaitsFor(rels, t[c], rel) ==>
        rel.id in byRelation && (c in byRelation[rel.id].waiting || IsReplaced(t, t[c], byRelation[rel.id]))
      ensures forall c, rel :: c in ids && c in t && WaitsFor(rels, t[c], rel) ==>
        c in results || exists d :: d in results && d in t && IsRival(rels, t[c], t[d], rel)
    {
      forall c, rel | c in ids && c in t && WaitsFor(rels, t[c], rel) && c !in results
        ensures exists d :: d in results && d in t && IsRival(rels, t[c], t[d], rel)
      {
        var e := byRelation[rel.id];
        assert IsReplaced(t, t[c], e);
        var d :| d in e.waiting && d in t && (t[d].account, t[d].group) != (t[c].account, t[c].group);
        assert WaitsFor(rels, t[d], e.rel);
        assert d in results && IsRival(rels, t[c], t[d], rel);
      }
    }

    static lemma NotYetServed(t: Table, ids: set<nat>, rels: seq<Relation>, busy: set<int>, entries: seq<Entry>, todo: set<int>, e: Entry)
      requires Served(t, ids, rels, busy, entries, todo) && Selects(t, ids, rels, e) && e.rel.id in todo
      ensures forall i, c :: 0 <= i < |entries| && c in e.waiting ==> c !in entries[i].waiting
      ensures forall c :: c in e.waiting ==> AssignedAll(t, entries)[c] == t[c]
      ensures WellFormed(t, e) && WellFormed(AssignedAll(t, entries), e)
    {
      forall i, c | 0 <= i < |entries| && c in e.waiting
        ensures c !in entries[i].waiting
      {
        if c in entries[i].waiting {
          SelectedOnce(t, ids, rels, e, entries[i], c);
        }
      }
      forall c | c in e.waiting
        ensures AssignedAll(t, entries)[c] == t[c]
      {
        AssignedAllElsewhere(t, entries, c);
      }
      SelectedIsWellFormed(t, ids, rels, e, t);
      SelectedIsWellFormed(t, ids, rels, e, AssignedAll(t, entries));
    }

    static lemma NoOtherWaits(t: Table, ids: set<nat>, rels: seq<Relation>, byRelation: map<int, Entry>, r: int)
      requires r in byRelation
      requires forall q :: q in byRelation ==> byRelation[q].rel.id == q && Selects(t, ids, rels, byRelation[q])
      ensures forall q, c :: q in byRelation && q != r && c in byRelation[q].waiting ==> c !in byRelation[r].waiting
    {
      forall q, c | q in byRelation && q != r && c in byRelation[q].waiting
        ensures c !in byRelation[r].waiting
      {
        if c in byRelation[r].waiting {
          SelectedOnce(t, ids, rels, byRelation[q], byRelation[r], c);
        }
      }
    }

    static lemma NextServed(t: Table, ids: set<nat>, rels: seq<Relation>, busy: set<int>, entries: seq<Entry>, todo: set<int>, e: Entry)
      requires Served(t, ids, rels, busy, entries, todo) && Selects(t, ids, rels, e) && e.rel.id in todo && e.rel.account !in busy
      ensures Served(t, ids, rels, busy, entries + [e], todo - {e.rel.id})
      ensures AssignedAll(t, entries + [e]) == Assigned(AssignedAll(t, entries), e)
    {
      NotYetServed(t, ids, rels, busy, entries, todo, e);
      ServesAppend(t, entries, e);
      AssignedAllAppend(t, entries, e);
    }

    static lemma DeferredAnswers(t: Table, ids: set<nat>, rels: seq<Relation>, busy: set<int>, t': Table, e: Entry)
      requires Selects(t, ids, rels, e) && e.rel.account in busy && t'.Keys == t.Keys
      requires forall c :: c in e.waiting ==> t'[c] == t[c]
      ensures forall c :: c in e.waiting ==> c in ids && Answered(t, rels, busy, t', c, None)
    {
      forall c | c in e.waiting
        ensures c in ids && Answered(t, rels, busy, t', c, None)
      {
        assert WaitsFor(rels, t[c], e.rel);
      }
    }

    static lemma AnswersStand(t: Table, ids: set<nat>, rels: seq<Relation>, busy: set<int>, t1: Table, e: Entry, results: map<nat, Option<int>>)
      requires WellFormed(t1, e) && SoundAnswers(t, ids, rels, busy, t1, results)
      requires forall c :: c in results ==> c !in e.waiting
      ensures SoundAnswers(t, ids, rels, busy, Assigned(t1, e), results)
    {
      forall c | c in results
        ensures Answered(t, rels, busy, Assigned(t1, e), c, results[c])
      {
        if results[c].None? {
          var rel :| WaitsFor(rels, t[c], rel) && (rel.account in busy || Exhausted(t1, rel));
          if Exhausted(t1, rel) {
            AssignKeepsExhausted(t1, e, rel);
          }
        }
      }
    }

    static lemma NewAnswers(t: Table, ids: set<nat>, rels: seq<Relation>, busy: set<int>, t1: Table, e: Entry, given: map<nat, Option<int>>)
      requires Selects(t, ids, rels, e) && WellFormed(t1, e) && t1.Keys == t.Keys
      requires forall c :: c in given <==> c in e.waiting
      requires forall c :: c in given ==> AsReal(given[c]) == OfferFor(t1, e, c)
      ensures SoundAnswers(t, ids, rels, busy, Assigned(t1, e), given)
    {
      forall c | c in given
        ensures c in ids && Answered(t, rels, busy, Assigned(t1, e), c, given[c])
      {
        assert WaitsFor(rels, t[c], e.rel);
        if given[c].None? {
          UnservedExhausts(t1, e, c);
        }
      }
    }

    /** The other channel waits for the same relation from another group. */
    static ghost predicate IsRival(rels: seq<Relation>, ch: Channel, other: Channel, rel: Relation) {
      && (other.account, other.group) != (ch.account, ch.group)
      && exists rel' :: WaitsFor(rels, other, rel') && rel'.id == rel.id
    }
  }

  /** The rows a repack has to write. */
  ghost function Changed(t: Table, rel: Relation): set<nat> {
    set c | c in t && Repacked(t, rel)[c] != t[c]
  }

  /** A second repack writes no row, releases nothing and reports the same packed and failed counts. */
  lemma SecondRepackWritesNothing(t: Table, rel: Relation)
    ensures var t' := Repacked(t, rel);
      && Changed(t', rel) == {} && ChannelTable.Numbered(t', ChannelTable.HiddenMembers(t', rel)) == {}
      && |Numbers(t', rel)| == |Numbers(t, rel)| && |Visible(t', rel)| == |Visible(t, rel)|
  {
    RepackIsIdempotent(t, rel);
    RepackKeepsOrderAndNumbers(t, rel);
    RepackIsOptimal(t, rel);
  }
}
