/** What repacking a group does to the channel table, and the properties that make it useful. */
module Repack {
  import opened Options
  import opened Sets
  import opened NaturalSort
  import opened Channels
  import opened Allocation

  /* Reservations */

  /** Every override's number and the own number of every channel outside `excluded`, over the whole system. */
  function Reserved(t: Table, excluded: set<nat>): set<real> {
    (set c | c in t && t[c].pinned.Some? :: t[c].pinned.value)
    + (set c | c in t && c !in excluded && t[c].number.Some? :: t[c].number.value)
  }

  /** The same, restricted to the numbers between the given bounds. */
  function ReservedWithin(t: Table, excluded: set<nat>, start: int, end: Option<int>): set<real> {
    set x | x in Reserved(t, excluded) && start as real <= x && (end.Some? ==> x <= end.value as real)
  }

  /** Scoping the reservations to the range changes no allocation. */
  lemma ScopedReservationsSuffice(t: Table, excluded: set<nat>, start: int, end: Option<int>, k: nat)
    ensures FreeNumbers(ReservedWithin(t, excluded, start, end), start, end, k)
         == FreeNumbers(Reserved(t, excluded), start, end, k)
  {
    FreeNumbersScoped(Reserved(t, excluded), ReservedWithin(t, excluded, start, end), start, end, k);
  }

  /* The new table */

  ghost function VisibleOrder(t: Table, rel: Relation): (order: seq<nat>)
    ensures IsOrderOf(t, rel, order, Visible(t, rel)) && |order| == |Visible(t, rel)|
  {
    InOrder(t, rel, Visible(t, rel))
  }

  ghost function Numbers(t: Table, rel: Relation): (nums: seq<int>)
    ensures |nums| <= |VisibleOrder(t, rel)|
  {
    FreeNumbers(Reserved(t, Members(t, rel)), Start(rel), End(rel), |VisibleOrder(t, rel)|)
  }

  /** The number a member gets: the k-th visible channel the k-th free number, every other member none. */
  ghost function NumberFor(t: Table, rel: Relation, c: nat): Option<real> {
    var order, nums := VisibleOrder(t, rel), Numbers(t, rel);
    if k: nat :| k < |nums| && order[k] == c then Some(nums[k] as real) else None
  }

  ghost function Repacked(t: Table, rel: Relation): (t': Table)
    ensures t'.Keys == t.Keys
  {
    map c | c in t :: if IsMember(t[c], rel) then t[c].(number := NumberFor(t, rel, c)) else t[c]
  }

  lemma OrderedOnce(t: Table, rel: Relation, i: nat, j: nat)
    requires i < |VisibleOrder(t, rel)| && j < |VisibleOrder(t, rel)|
    requires VisibleOrder(t, rel)[i] == VisibleOrder(t, rel)[j]
    ensures i == j
  {
    var c := VisibleOrder(t, rel)[i];
    BeforeIsStrictTotal(t, rel, c, c, c);
  }

  lemma NumberAt(t: Table, rel: Relation, k: nat)
    requires k < |VisibleOrder(t, rel)|
    ensures NumberFor(t, rel, VisibleOrder(t, rel)[k]) ==
      if k < |Numbers(t, rel)| then Some(Numbers(t, rel)[k] as real) else None
  {
    var order, nums, c := VisibleOrder(t, rel), Numbers(t, rel), VisibleOrder(t, rel)[k];
    forall i: nat | i < |nums| && order[i] == c
      ensures i == k
    {
      OrderedOnce(t, rel, i, k);
    }
    if k < |nums| {
      assert order[k] == c;
    }
  }

  lemma OnlyVisibleNumbered(t: Table, rel: Relation, c: nat)
    requires c !in Visible(t, rel)
    ensures NumberFor(t, rel, c).None?
  {
    var order, nums := VisibleOrder(t, rel), Numbers(t, rel);
    forall k: nat | k < |nums|
      ensures order[k] != c
    {
      assert order[k] in order;
    }
  }

  /** Repacking is ordered and optimal.  The visible channels in packing order get strictly increasing
      numbers, which are the lowest free numbers of the range; a channel is left without a number only
      when the range has no free number left; hidden and pinned members lose their own number, and
      nothing else changes. */
  lemma RepackIsOptimal(t: Table, rel: Relation)
    ensures var order, nums, t' := VisibleOrder(t, rel), Numbers(t, rel), Repacked(t, rel);
      && IsOrderOf(t, rel, order, Visible(t, rel))
      && AreFirstFree(nums, Reserved(t, Members(t, rel)), Start(rel), End(rel))
      && (forall k: nat :: k < |nums| ==> t'[order[k]] == t[order[k]].(number := Some(nums[k] as real)))
      && (forall k: nat :: |nums| <= k < |order| ==> t'[order[k]] == t[order[k]].(number := None))
      && (|nums| < |order| ==> End(rel).Some?)
      && (|nums| < |order| ==>
            forall m :: InRange(m, Start(rel), End(rel)) && !Taken(Reserved(t, Members(t, rel)), m) ==> m in nums)
      && (forall c :: c in Members(t, rel) - Visible(t, rel) ==> t'[c] == t[c].(number := None))
      && (forall c :: c in t && c !in Members(t, rel) ==> t'[c] == t[c])
  {
    var order, nums, t' := VisibleOrder(t, rel), Numbers(t, rel), Repacked(t, rel);
    FreeNumbersAreFirst(Reserved(t, Members(t, rel)), Start(rel), End(rel), |order|);
    if |nums| < |order| {
      FreeNumbersExhaust(Reserved(t, Members(t, rel)), Start(rel), End(rel), |order|);
    }
    forall k: nat | k < |order|
      ensures t'[order[k]] == t[order[k]].(number := if k < |nums| then Some(nums[k] as real) else None)
    {
      NumberAt(t, rel, k);
      assert order[k] in order;
    }
    forall c | c in Members(t, rel) - Visible(t, rel)
      ensures t'[c] == t[c].(number := None)
    {
      OnlyVisibleNumbered(t, rel, c);
    }
  }

  /** As many channels are numbered as there are visible channels or free numbers, whichever is less. */
  lemma RepackFillsRange(t: Table, rel: Relation, free: set<int>)
    requires End(rel).Some?
    requires forall m :: m in free <==> InRange(m, Start(rel), End(rel)) && !Taken(Reserved(t, Members(t, rel)), m)
    ensures |Numbers(t, rel)| == if |Visible(t, rel)| < |free| then |Visible(t, rel)| else |free|
  {
    var nums := Numbers(t, rel);
    RepackIsOptimal(t, rel);
    var given := set i: nat | i < |nums| :: nums[i];
    IncreasingSize(nums, given);
    forall m | m in given
      ensures m in free
    {
    }
    assert given <= free;
    SubsetSize(given, free);
    if |nums| < |VisibleOrder(t, rel)| {
      forall m | m in free
        ensures m in given
      {
        assert m in nums;
        var i :| 0 <= i < |nums| && nums[i] == m;
      }
      SubsetSize(free, given);
    }
  }

  lemma {:induction false} IncreasingSize(nums: seq<int>, given: set<int>)
    requires forall i, j :: 0 <= i < j < |nums| ==> nums[i] < nums[j]
    requires given == set i: nat | i < |nums| :: nums[i]
    ensures |given| == |nums|
    decreases |nums|
  {
    if nums != [] {
      var n := |nums| - 1;
      var rest := set i: nat | i < n :: nums[..n][i];
      IncreasingSize(nums[..n], rest);
      forall m
        ensures m in given <==> m in rest + {nums[n]}
      {
        if m in rest {
          var i: nat :| i < n && nums[..n][i] == m;
          assert nums[i] == m;
        }
        if m in given && m != nums[n] {
          var i: nat :| i < |nums| && nums[i] == m;
          assert nums[..n][i] == m;
        }
      }
      assert given == rest + {nums[n]};
      assert nums[n] !in rest;
    }
  }

  lemma PlaceOf(t: Table, rel: Relation, c: nat) returns (k: nat)
    requires NumberFor(t, rel, c).Some?
    ensures k < |Numbers(t, rel)| && VisibleOrder(t, rel)[k] == c && NumberFor(t, rel, c).value == Numbers(t, rel)[k] as real
  {
    k :| k < |Numbers(t, rel)| && VisibleOrder(t, rel)[k] == c && NumberFor(t, rel, c) == Some(Numbers(t, rel)[k] as real);
  }

  /* What a repack means for a channel, field by field */

  /** Which channels a repack changes and how: those the account's sync made in the group, or in the group
      its override names, and of these only the number; the hidden and the pinned ones end with none. */
  lemma RepackTouches(t: Table, rel: Relation, c: nat)
    requires c in t
    ensures var ch, after := t[c], Repacked(t, rel)[c];
      if ch.autoCreated && ch.account == Some(rel.account) && ch.group.Some? &&
         (ch.group.value == rel.group || rel.groupOverride == ch.group)
      then after == ch.(number := after.number) && (ch.hidden || ch.pinned.Some? ==> after.number == None)
      else after == ch
  {
    if t[c].hidden || t[c].pinned.Some? {
      OnlyVisibleNumbered(t, rel, c);
    }
  }

  /** Some channel has the number, or an override that sets it. */
  ghost predicate InUse(t: Table, m: int) {
    exists c :: c in t && (t[c].number == Some(m as real) || t[c].pinned == Some(m as real))
  }

  lemma StillInUse(t: Table, rel: Relation, m: int)
    requires Taken(Reserved(t, Members(t, rel)), m) || m in Numbers(t, rel)
    ensures InUse(Repacked(t, rel), m)
  {
    if m in Numbers(t, rel) {
      var k :| 0 <= k < |Numbers(t, rel)| && Numbers(t, rel)[k] == m;
      GivenIsInUse(t, rel, k);
    } else {
      ReservedIsInUse(t, rel, m);
    }
  }

  lemma ReservedIsInUse(t: Table, rel: Relation, m: int)
    requires Taken(Reserved(t, Members(t, rel)), m)
    ensures InUse(Repacked(t, rel), m)
  {
    var d := Claimant(t, Members(t, rel), m as real);
    OwnPinStays(t, rel, d);
    assert Repacked(t, rel)[d].number == Some(m as real) || Repacked(t, rel)[d].pinned == Some(m as real);
  }

  lemma Claimant(t: Table, excluded: set<nat>, x: real) returns (d: nat)
    requires x in Reserved(t, excluded)
    ensures d in t && (t[d].pinned == Some(x) || (d !in excluded && t[d].number == Some(x)))
  {
    d :| d in t && (t[d].pinned == Some(x) || (d !in excluded && t[d].number == Some(x)));
  }

  lemma OwnPinStays(t: Table, rel: Relation, d: nat)
    requires d in t
    ensures Repacked(t, rel)[d].pinned == t[d].pinned && (d !in Members(t, rel) ==> Repacked(t, rel)[d] == t[d])
  {
  }

  lemma GivenIsInUse(t: Table, rel: Relation, k: nat)
    requires k < |Numbers(t, rel)|
    ensures InUse(Repacked(t, rel), Numbers(t, rel)[k])
  {
    NumberAt(t, rel, k);
    assert VisibleOrder(t, rel)[k] in VisibleOrder(t, rel);
    assert Repacked(t, rel)[VisibleOrder(t, rel)[k]].number == Some(Numbers(t, rel)[k] as real);
  }

  /** A number that a repack gives is a whole number of the range, and it leaves no gap: every number of the
      range below it is in use afterwards; and where a visible channel is left without one, so is every
      number of the range, which then has an end. */
  lemma RepackLeavesNoGap(t: Table, rel: Relation, c: nat, m: int)
    requires c in t && IsMember(t[c], rel) && t[c].pinned.None? && !t[c].hidden && Start(rel) <= m
    ensures var number := Repacked(t, rel)[c].number;
      && (number.Some? ==> number.value >= Start(rel) as real && number.value.Floor as real == number.value)
      && (number.Some? && End(rel).Some? ==> number.value <= End(rel).value as real)
      && (number.Some? && m as real < number.value ==> InUse(Repacked(t, rel), m))
      && (number.None? ==> End(rel).Some? && (m <= End(rel).value ==> InUse(Repacked(t, rel), m)))
  {
    var order, nums := VisibleOrder(t, rel), Numbers(t, rel);
    RepackIsOptimal(t, rel);
    assert c in Visible(t, rel) && c in order;
    var k: nat :| k < |order| && order[k] == c;
    NumberAt(t, rel, k);
    if k < |nums| {
      assert m < nums[k] && !Taken(Reserved(t, Members(t, rel)), m) ==> m in nums;
    }
    if (if k < |nums| then m < nums[k] else m <= End(rel).value) {
      StillInUse(t, rel, m);
    }
  }

  lemma PlacesFollowOrder(t: Table, rel: Relation, order: seq<nat>, k: nat, l: nat)
    requires Sorted(t, rel, order) && k < |order| && l < |order| && order[k] != order[l]
    ensures k < l <==> Before(t, rel, order[k], order[l])
  {
    BeforeIsStrictTotal(t, rel, order[k], order[l], order[k]);
  }

  lemma NumbersFollowOrder(t: Table, rel: Relation, a: nat, b: nat)
    requires a in t && b in t && a != b && NumberFor(t, rel, a).Some? && NumberFor(t, rel, b).Some?
    ensures NumberFor(t, rel, a).value < NumberFor(t, rel, b).value <==> Before(t, rel, a, b)
  {
    var k := PlaceOf(t, rel, a);
    var l := PlaceOf(t, rel, b);
    FreeNumbersAreFirst(Reserved(t, Members(t, rel)), Start(rel), End(rel), |VisibleOrder(t, rel)|);
    PlacesFollowOrder(t, rel, VisibleOrder(t, rel), k, l);
    assert k < l ==> Numbers(t, rel)[k] < Numbers(t, rel)[l];
    assert l < k ==> Numbers(t, rel)[l] < Numbers(t, rel)[k];
  }

  /** Who gets the lower number of two channels that a repack numbers.  By provider: the one created first.
      By name, by tvg id or by update time: the one whose natural key, tvg id or time is less, or with these
      alike the one created first; the other way round where the order is reversed. */
  lemma NumbersFollowSetting(t: Table, rel: Relation, a: nat, b: nat)
    requires a in t && b in t && a != b && IsMember(t[a], rel) && IsMember(t[b], rel)
    requires Repacked(t, rel)[a].number.Some? && Repacked(t, rel)[b].number.Some?
    ensures var lower := Repacked(t, rel)[a].number.value < Repacked(t, rel)[b].number.value;
      match rel.order
      case ByProvider => lower <==> a < b
      case ByName =>
        && (KeyLess(NaturalKey(t[a].name), NaturalKey(t[b].name)) ==> (lower <==> !rel.reverse))
        && (NaturalKey(t[a].name) == NaturalKey(t[b].name) ==> (lower <==> (a < b) != rel.reverse))
      case ByTvgId =>
        && (LexLess(CharLess, t[a].tvgId, t[b].tvgId) ==> (lower <==> !rel.reverse))
        && (t[a].tvgId == t[b].tvgId ==> (lower <==> (a < b) != rel.reverse))
      case ByUpdate =>
        && (t[a].updatedAt < t[b].updatedAt ==> (lower <==> !rel.reverse))
        && (t[a].updatedAt == t[b].updatedAt ==> (lower <==> (a < b) != rel.reverse))
  {
    NumbersFollowOrder(t, rel, a, b);
    BeforeByKey(t, rel, a, b);
    OneChunkKeys(t[a].tvgId, t[b].tvgId, t[a].updatedAt, t[b].updatedAt);
  }

  /* Idempotence */

  lemma RepackKeepsOrderAndNumbers(t: Table, rel: Relation)
    ensures Visible(Repacked(t, rel), rel) == Visible(t, rel)
    ensures VisibleOrder(Repacked(t, rel), rel) == VisibleOrder(t, rel)
    ensures Numbers(Repacked(t, rel), rel) == Numbers(t, rel)
  {
    var t' := Repacked(t, rel);
    assert Members(t', rel) == Members(t, rel);
    assert Visible(t', rel) == Visible(t, rel);
    SameOrder(t, t', rel);
    SameReservations(t, t', rel);
  }

  /** A second repack of the group leaves the table as it is. */
  lemma RepackIsIdempotent(t: Table, rel: Relation)
    ensures Repacked(Repacked(t, rel), rel) == Repacked(t, rel)
    ensures Numbers(Repacked(t, rel), rel) == Numbers(t, rel)
    ensures VisibleOrder(Repacked(t, rel), rel) == VisibleOrder(t, rel)
  {
    var t' := Repacked(t, rel);
    RepackKeepsOrderAndNumbers(t, rel);
    forall c | c in t
      ensures Repacked(t', rel)[c] == t'[c]
    {
      RepackedAgain(t, rel, c);
    }
    SameTables(Repacked(t', rel), t');
  }

  lemma SameTables(t: Table, t': Table)
    requires t.Keys == t'.Keys && forall c :: c in t ==> t[c] == t'[c]
    ensures t == t'
  {
  }

  lemma RepackedAgain(t: Table, rel: Relation, c: nat)
    requires c in t
    ensures Repacked(Repacked(t, rel), rel)[c] == Repacked(t, rel)[c]
  {
    RepackKeepsOrderAndNumbers(t, rel);
    NumberForIsStable(t, Repacked(t, rel), rel, c);
  }

  lemma NumberForIsStable(t: Table, t': Table, rel: Relation, c: nat)
    requires Visible(t', rel) == Visible(t, rel) && VisibleOrder(t', rel) == VisibleOrder(t, rel)
    requires Numbers(t', rel) == Numbers(t, rel)
    ensures NumberFor(t', rel, c) == NumberFor(t, rel, c)
  {
    var order := VisibleOrder(t, rel);
    if c in Visible(t, rel) {
      assert c in order;
      var k: nat :| k < |order| && order[k] == c;
      NumberAt(t, rel, k);
      NumberAt(t', rel, k);
    } else {
      OnlyVisibleNumbered(t, rel, c);
      OnlyVisibleNumbered(t', rel, c);
    }
  }

  lemma SameOrder(t: Table, t': Table, rel: Relation)
    requires t'.Keys == t.Keys && Visible(t', rel) == Visible(t, rel)
    requires forall c :: c in t ==> t'[c].(number := t[c].number) == t[c]
    ensures VisibleOrder(t', rel) == VisibleOrder(t, rel)
  {
    var order := VisibleOrder(t', rel);
    StillSorted(t, t', rel, order);
    OrderIsUnique(t, rel, order, VisibleOrder(t, rel), Visible(t, rel));
  }

  lemma StillSorted(t: Table, t': Table, rel: Relation, order: seq<nat>)
    requires Sorted(t', rel, order) && t'.Keys == t.Keys && forall c :: c in order ==> c in t
    requires forall c :: c in t ==> t'[c].(number := t[c].number) == t[c]
    ensures Sorted(t, rel, order)
  {
    forall i | 0 <= i < |order|
      ensures order[i] in t && SortKey(rel, t[order[i]]) == SortKey(rel, t'[order[i]])
    {
      assert order[i] in order;
      SortKeyIgnoresNumber(rel, t'[order[i]], t[order[i]].number);
    }
  }

  lemma SortKeyIgnoresNumber(rel: Relation, ch: Channel, number: Option<real>)
    ensures SortKey(rel, ch.(number := number)) == SortKey(rel, ch)
  {
  }

  lemma SameReservations(t: Table, t': Table, rel: Relation)
    requires t'.Keys == t.Keys && Members(t', rel) == Members(t, rel)
    requires forall c :: c in t ==> t'[c].pinned == t[c].pinned
    requires forall c :: c in t && c !in Members(t, rel) ==> t'[c] == t[c]
    ensures Reserved(t', Members(t', rel)) == Reserved(t, Members(t, rel))
  {
  }

  /* Uniqueness of effective numbers */

  /** No other channel of the system is published under the number of this one, which is not pinned. */
  ghost predicate Settled(t: Table, c: nat) {
    c in t && t[c].pinned.None?
    && (t[c].number.Some? ==> forall d :: d in t && d != c ==> Effective(t[d]) != t[c].number)
  }

  lemma EffectiveIsReserved(t: Table, excluded: set<nat>, d: nat)
    requires d in t && Effective(t[d]).Some? && (d in excluded ==> t[d].pinned.Some?)
    ensures Effective(t[d]).value in Reserved(t, excluded)
  {
  }

  lemma NumberIsUnreserved(t: Table, rel: Relation, c: nat)
    requires NumberFor(t, rel, c).Some?
    ensures NumberFor(t, rel, c).value !in Reserved(t, Members(t, rel)) && c in Visible(t, rel)
  {
    var order, nums := VisibleOrder(t, rel), Numbers(t, rel);
    FreeNumbersAreFirst(Reserved(t, Members(t, rel)), Start(rel), End(rel), |order|);
    var k: nat :| k < |nums| && order[k] == c && NumberFor(t, rel, c) == Some(nums[k] as real);
    assert order[k] in order;
    assert !Taken(Reserved(t, Members(t, rel)), nums[k]);
  }

  lemma DistinctPlaces(t: Table, rel: Relation, k: nat, l: nat)
    requires k < |Numbers(t, rel)| && l < |Numbers(t, rel)| && k != l
    ensures Numbers(t, rel)[k] != Numbers(t, rel)[l]
  {
    FreeNumbersAreFirst(Reserved(t, Members(t, rel)), Start(rel), End(rel), |VisibleOrder(t, rel)|);
  }

  lemma NumbersAreDistinct(t: Table, rel: Relation, c: nat, d: nat)
    requires c != d && NumberFor(t, rel, c).Some?
    ensures NumberFor(t, rel, c) != NumberFor(t, rel, d)
  {
    var k := PlaceOf(t, rel, c);
    if NumberFor(t, rel, d).Some? {
      var l := PlaceOf(t, rel, d);
      DistinctPlaces(t, rel, k, l);
    }
  }

  /** After a repack every unpinned member is settled, whatever the numbers were before. */
  lemma RepackSettlesMembers(t: Table, rel: Relation, c: nat)
    requires c in Members(t, rel) && t[c].pinned.None?
    ensures Settled(Repacked(t, rel), c)
  {
    var t' := Repacked(t, rel);
    if t'[c].number.Some? {
      NumberIsUnreserved(t, rel, c);
      forall d | d in t' && d != c
        ensures Effective(t'[d]) != t'[c].number
      {
        if d in Members(t, rel) && t[d].pinned.None? {
          NumbersAreDistinct(t, rel, c, d);
        } else if Effective(t[d]).Some? {
          EffectiveIsReserved(t, Members(t, rel), d);
        }
      }
    }
  }

  /** A repack unsettles no channel of any group. */
  lemma RepackKeepsSettled(t: Table, rel: Relation, c: nat)
    requires Settled(t, c)
    ensures Settled(Repacked(t, rel), c)
  {
    var t' := Repacked(t, rel);
    if c in Members(t, rel) {
      RepackSettlesMembers(t, rel, c);
    } else if t[c].number.Some? {
      forall d | d in t' && d != c
        ensures Effective(t'[d]) != t'[c].number
      {
        if d in Members(t, rel) && t[d].pinned.None? && NumberFor(t, rel, d).Some? {
          NumberIsUnreserved(t, rel, d);
          EffectiveIsReserved(t, Members(t, rel), c);
        }
      }
    }
  }

  /** Repacking several groups, one after the other. */
  ghost function RepackedAll(t: Table, rels: seq<Relation>): (t': Table)
    ensures t'.Keys == t.Keys
    ensures forall c :: c in t ==> t'[c].(number := t[c].number) == t[c]
  {
    if rels == [] then t else RepackedAll(Repacked(t, rels[0]), rels[1..])
  }

  lemma {:induction false} RepackedAllKeepsSettled(t: Table, rels: seq<Relation>, c: nat)
    requires Settled(t, c)
    ensures Settled(RepackedAll(t, rels), c)
    decreases |rels|
  {
    if rels != [] {
      RepackKeepsSettled(t, rels[0], c);
      RepackedAllKeepsSettled(Repacked(t, rels[0]), rels[1..], c);
    }
  }

  /** Self-stabilisation: from any numbers, repacking each group once, in any order, leaves every
      unpinned member of every one of them settled, even if groups share channels. */
  lemma {:induction false} RepackingSettles(t: Table, rels: seq<Relation>, i: nat, c: nat)
    requires i < |rels| && c in Members(t, rels[i]) && t[c].pinned.None?
    ensures Settled(RepackedAll(t, rels), c)
    decreases |rels|
  {
    var t' := Repacked(t, rels[0]);
    if i == 0 {
      RepackSettlesMembers(t, rels[0], c);
      RepackedAllKeepsSettled(t', rels[1..], c);
    } else {
      RepackingSettles(t', rels[1..], i - 1, c);
    }
  }
}
