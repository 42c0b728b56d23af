/** What the tables look like when a rehash is over, and what follows from it. */
module RehashOutcome {
  import opened Options
  import opened StreamTables
  import opened RehashSpec
  import opened RehashSteps

  ghost function CountedClass(t0: Tables, h: Hash): set<int> {
    set i | i in t0.streams && t0.streams[i].key == h && Counts(t0, i)
  }

  /** Row `v` is what is left of its class: the best of the members that count, storing the class
      hash, linked to exactly their channels at the best position each gave to any of them. */
  ghost predicate Canonical(t0: Tables, t: Tables, v: int)
    requires v in t.streams
  {
    && Counts(t0, v)
    && t.streams[v] == t0.streams[v].(stored := Some(t0.streams[v].key))
    && (forall i {:trigger Outranks(t0, v, i)} :: Counts(t0, i) && SameClass(t0, i, v) && i != v ==> Outranks(t0, v, i))
    && forall c :: MinOver(OrderAt(t.links, c, v), t0.links, c, CountedClass(t0, t0.streams[v].key))
  }

  /** Some row of the class of `i` is left. */
  ghost predicate Represented(t0: Tables, t: Tables, i: int) {
    exists v :: v in t.streams && SameClass(t0, v, i)
  }

  ghost predicate Outcome(t0: Tables, t: Tables) {
    && (forall v {:trigger Canonical(t0, t, v)} :: v in t.streams ==> Canonical(t0, t, v))
    && (forall i {:trigger Represented(t0, t, i)} :: Counts(t0, i) ==> Represented(t0, t, i))
  }

  ghost predicate Over(t: Tables, p: Progress) {
    forall i :: i in t.streams ==> i <= p.last
  }

  lemma OverMeansAllMet(t0: Tables, t: Tables, p: Progress)
    requires Inv(t0, t, p) && Over(t, p)
    ensures p.seen == t0.streams.Keys
    ensures forall h :: Active(t0, p, h) == CountedClass(t0, h)
  {
    forall i | i in t0.streams
      ensures i in p.seen
    {
      UnseenIsUntouched(t0, t, p, i);
    }
    forall d | SelfMerged(t0, d)
      ensures d <= p.last
    {
      if p.last < d {
        AheadIsHead(t0, t, p, d);
      }
    }
  }

  lemma OverMeansOutcome(t0: Tables, t: Tables, p: Progress)
    requires Inv(t0, t, p) && Over(t, p)
    ensures Outcome(t0, t) && Consistent(t0)
  {
    OverMeansAllMet(t0, t, p);
    forall v | v in t.streams
      ensures Canonical(t0, t, v)
    {
      assert HeadStands(t0, t, p, t0.streams[v].key);
      assert v in Active(t0, p, t0.streams[v].key);
    }
    forall i | Counts(t0, i)
      ensures Represented(t0, t, i)
    {
      assert HeadStands(t0, t, p, t0.streams[i].key);
      assert i in Active(t0, p, t0.streams[i].key);
      assert SameClass(t0, p.heads[t0.streams[i].key], i);
    }
    forall i, j | i in t0.streams && j in t0.streams && i < j && t0.streams[j].stored == Some(t0.streams[i].key)
      ensures SameClass(t0, i, j)
    {
      assert Resolved(t0, p, j);
    }
  }

  /* Consequences */

  /** The row left of a class is as it was but for the hash it now stores, and no counted member had a
      better position, the same position and a later update, or the same of both and a lower id. */
  lemma SurvivorIsBest(t0: Tables, t: Tables, v: int, i: int)
    requires Outcome(t0, t) && v in t.streams && Counts(t0, i) && SameClass(t0, i, v)
    ensures t.streams[v] == t0.streams[v].(stored := Some(t0.streams[v].key))
    ensures var best, other := BestOrder(t0.links, v), BestOrder(t0.links, i);
      && (other.Some? ==> best.Some? && best.value <= other.value)
      && (best == other ==> t0.streams[v].updatedAt >= t0.streams[i].updatedAt)
      && (best == other && t0.streams[v].updatedAt == t0.streams[i].updatedAt ==> v <= i)
  {
    assert Canonical(t0, t, v);
    assert v != i ==> Outranks(t0, v, i);
  }

  /** Which row is merged with itself: one that already stores its new hash, is not the first of its
      class, and is better placed than every earlier row of it, or placed alike and updated later. */
  lemma SelfMergedExactly(t0: Tables, d: int)
    ensures SelfMerged(t0, d) <==>
      && d in t0.streams && t0.streams[d].stored == Some(t0.streams[d].key)
      && (exists k :: k < d && SameClass(t0, k, d))
      && forall k :: k < d && SameClass(t0, k, d) ==>
           var mine, other := BestOrder(t0.links, d), BestOrder(t0.links, k);
           if mine == other then t0.streams[d].updatedAt > t0.streams[k].updatedAt
           else mine.Some? && (other.Some? ==> mine.value < other.value)
  {
    forall k | k < d && SameClass(t0, k, d)
      ensures Outranks(t0, d, k) <==>
        var mine, other := BestOrder(t0.links, d), BestOrder(t0.links, k);
        if mine == other then t0.streams[d].updatedAt > t0.streams[k].updatedAt
        else mine.Some? && (other.Some? ==> mine.value < other.value)
    {
      assert SameClass(t0, d, k);
    }
  }

  /** At most one row per class is left. */
  lemma OnePerClass(t0: Tables, t1: Tables, t2: Tables, v: int, w: int)
    requires v in t1.streams && Canonical(t0, t1, v) && w in t2.streams && Canonical(t0, t2, w) && SameClass(t0, v, w)
    ensures v == w
  {
    if v != w {
      assert Outranks(t0, v, w) && Outranks(t0, w, v);
      BeatsIsStrictTotalOrder(InitialRank(t0, v), InitialRank(t0, w), InitialRank(t0, v));
    }
  }

  lemma OutcomeRowsIncluded(t0: Tables, t1: Tables, t2: Tables)
    requires Outcome(t0, t1) && Outcome(t0, t2)
    ensures forall v :: v in t1.streams ==> v in t2.streams && t1.streams[v] == t2.streams[v]
  {
    forall v | v in t1.streams
      ensures v in t2.streams && t1.streams[v] == t2.streams[v]
    {
      assert Canonical(t0, t1, v) && Represented(t0, t2, v);
      var w :| w in t2.streams && SameClass(t0, w, v);
      assert Canonical(t0, t2, w);
      OnePerClass(t0, t1, t2, v, w);
    }
  }

  lemma SamePositions(t0: Tables, t1: Tables, t2: Tables, c: int, s: int)
    requires Outcome(t0, t1) && Outcome(t0, t2) && SoundTables(t1) && SoundTables(t2)
    requires s in t1.streams <==> s in t2.streams
    ensures OrderAt(t1.links, c, s) == OrderAt(t2.links, c, s)
  {
    if s in t1.streams {
      assert Canonical(t0, t1, s) && Canonical(t0, t2, s);
      var g := CountedClass(t0, t0.streams[s].key);
      assert MinOver(OrderAt(t1.links, c, s), t0.links, c, g) && MinOver(OrderAt(t2.links, c, s), t0.links, c, g);
    }
  }

  lemma SameRows(a: Streams, b: Streams)
    requires forall v :: v in a ==> v in b && a[v] == b[v]
    requires forall v :: v in b ==> v in a
    ensures a == b
  {
    forall v
      ensures v in a <==> v in b
      ensures v in a ==> a[v] == b[v]
    {
      assert v in b ==> v in a;
    }
    assert a.Keys == b.Keys;
  }

  /** The outcome does not depend on the batches, nor on the order links were moved in: two runs
      from the same tables leave the same rows and the same positions. */
  lemma OutcomeIsUnique(t0: Tables, t1: Tables, t2: Tables)
    requires Outcome(t0, t1) && Outcome(t0, t2) && SoundTables(t1) && SoundTables(t2)
    ensures t1.streams == t2.streams
    ensures forall c, s :: OrderAt(t1.links, c, s) == OrderAt(t2.links, c, s)
  {
    OutcomeRowsIncluded(t0, t1, t2);
    OutcomeRowsIncluded(t0, t2, t1);
    SameRows(t1.streams, t2.streams);
    forall c, s
      ensures OrderAt(t1.links, c, s) == OrderAt(t2.links, c, s)
    {
      SamePositions(t0, t1, t2, c, s);
    }
  }

  /** Tables without stored hashes, as before the first rehash, are Safe, and no query looks ahead. */
  lemma UnhashedIsSafe(t0: Tables)
    requires UniquePairs(t0.links) && (forall l :: l in t0.links ==> t0.links[l].stream in t0.streams)
    requires forall i :: i in t0.streams ==> t0.streams[i].stored == None
    ensures SoundTables(t0) && Safe(t0) && NoLookAhead(t0)
  {
  }

  /** Where nothing is self-merged every member counts, so the outcome is the intended one. */
  lemma SafeCountsAll(t0: Tables, i: int)
    requires Safe(t0) && i in t0.streams
    ensures Counts(t0, i)
  {
  }

  lemma LastSelfMergedLosesClass(t0: Tables, t: Tables, m: int, d: int)
    requires Outcome(t0, t) && SelfMerged(t0, d) && SameClass(t0, d, m) && forall i :: SameClass(t0, i, m) ==> i <= d
    ensures !Represented(t0, t, m)
  {
    forall v | v in t.streams
      ensures !SameClass(t0, v, m)
    {
      assert Canonical(t0, t, v);
      assert SameClass(t0, v, m) ==> SameClass(t0, d, v);
    }
  }

  lemma LaterMemberKeepsClass(t0: Tables, t: Tables, m: int, d: int, i: int)
    requires Outcome(t0, t) && SoundTables(t0)
    requires SelfMerged(t0, d) && SameClass(t0, d, m) && SameClass(t0, i, m) && d < i
    ensures Represented(t0, t, m)
  {
    forall e | SelfMerged(t0, e) && SameClass(t0, e, i)
      ensures e < i
    {
      StoresOwnOnce(t0, d, e);
    }
    assert Represented(t0, t, i);
    var v :| v in t.streams && SameClass(t0, v, i);
    assert SameClass(t0, v, m);
  }

  /** A class disappears exactly when the row that already stored its hash is its last member, is
      not its only one, and outranks all the others. */
  lemma ClassLostExactly(t0: Tables, t: Tables, m: int)
    requires Outcome(t0, t) && SoundTables(t0) && m in t0.streams
    ensures !Represented(t0, t, m)
       <==> exists d :: SelfMerged(t0, d) && SameClass(t0, d, m) && forall i :: SameClass(t0, i, m) ==> i <= d
  {
    if !Represented(t0, t, m) {
      assert !Counts(t0, m);
      var d :| SelfMerged(t0, d) && SameClass(t0, d, m);
      forall i | SameClass(t0, i, m)
        ensures i <= d
      {
        if d < i {
          LaterMemberKeepsClass(t0, t, m, d, i);
        }
      }
    }
    forall d | SelfMerged(t0, d) && SameClass(t0, d, m) && forall i :: SameClass(t0, i, m) ==> i <= d
      ensures !Represented(t0, t, m)
    {
      LastSelfMergedLosesClass(t0, t, m, d);
    }
  }

  lemma LeftRowsAreAlone(t0: Tables, t: Tables)
    requires Outcome(t0, t)
    ensures NoLookAhead(t) && Safe(t)
    ensures forall i, j :: SameClass(t, i, j) ==> i == j
  {
    forall i, j | SameClass(t, i, j)
      ensures i == j
    {
      assert Canonical(t0, t, i) && Canonical(t0, t, j);
      OnePerClass(t0, t, t, i, j);
    }
    forall i, j | i in t.streams && j in t.streams && t.streams[j].stored == Some(t.streams[i].key)
      ensures i == j
    {
      assert Canonical(t0, t, j);
      assert SameClass(t, i, j);
    }
  }

  lemma LeftIsItsOwnOutcome(t0: Tables, t: Tables)
    requires Outcome(t0, t)
    ensures Outcome(t, t)
  {
    LeftRowsAreAlone(t0, t);
    forall v | v in t.streams
      ensures Canonical(t, t, v)
    {
      assert Canonical(t0, t, v);
      SafeCountsAll(t, v);
      assert CountedClass(t, t.streams[v].key) == {v} by {
        forall i | i in CountedClass(t, t.streams[v].key)
          ensures i == v
        {
          assert SameClass(t, i, v);
        }
      }
      UntouchedInitially(t, v);
    }
    forall i | Counts(t, i)
      ensures Represented(t, t, i)
    {
      assert SameClass(t, i, i);
    }
  }

  /** Nothing is self-merged and nothing looked up in tables a rehash has left: running it again
      changes nothing. */
  lemma RehashIsIdempotent(t0: Tables, t: Tables, t': Tables)
    requires Outcome(t0, t) && SoundTables(t) && Outcome(t, t') && SoundTables(t')
    ensures NoLookAhead(t) && Safe(t)
    ensures t'.streams == t.streams
    ensures forall c, s :: OrderAt(t'.links, c, s) == OrderAt(t.links, c, s)
  {
    LeftRowsAreAlone(t0, t);
    LeftIsItsOwnOutcome(t0, t);
    OutcomeIsUnique(t, t, t');
  }

  /** Under Safe a channel plays the survivor exactly when it played some member of the class. */
  lemma LinksConserved(t0: Tables, t: Tables, v: int, c: int)
    requires Outcome(t0, t) && Safe(t0) && v in t.streams
    ensures OrderAt(t.links, c, v).Some? <==> exists i :: SameClass(t0, i, v) && OrderAt(t0.links, c, i).Some?
    ensures forall i :: SameClass(t0, i, v) && OrderAt(t0.links, c, i).Some? ==>
                        OrderAt(t.links, c, v).Some? && OrderAt(t.links, c, v).value <= OrderAt(t0.links, c, i).value
  {
    assert Canonical(t0, t, v);
    var g := CountedClass(t0, t0.streams[v].key);
    assert MinOver(OrderAt(t.links, c, v), t0.links, c, g);
    forall i | SameClass(t0, i, v)
      ensures i in g
    {
      SafeCountsAll(t0, i);
    }
    if OrderAt(t.links, c, v).Some? {
      var i :| i in g && OrderAt(t0.links, c, i) == OrderAt(t.links, c, v);
      assert SameClass(t0, i, v);
    }
  }

  /** The channel is linked to some row left of the class of `m`. */
  ghost predicate Plays(t0: Tables, t: Tables, c: int, m: int) {
    exists v :: v in t.streams && SameClass(t0, v, m) && OrderAt(t.links, c, v).Some?
  }

  ghost predicate PlayedCounted(t0: Tables, c: int, m: int) {
    exists i :: Counts(t0, i) && SameClass(t0, i, m) && OrderAt(t0.links, c, i).Some?
  }

  /** A channel keeps a class exactly when it played a member that counts. */
  lemma ClassKeptExactly(t0: Tables, t: Tables, c: int, m: int)
    requires Outcome(t0, t) && m in t0.streams
    ensures Plays(t0, t, c, m) <==> PlayedCounted(t0, c, m)
  {
    if Plays(t0, t, c, m) {
      var v :| v in t.streams && SameClass(t0, v, m) && OrderAt(t.links, c, v).Some?;
      assert Canonical(t0, t, v);
      var i :| i in CountedClass(t0, t0.streams[v].key) && OrderAt(t0.links, c, i) == OrderAt(t.links, c, v);
      assert SameClass(t0, i, m);
    }
    if PlayedCounted(t0, c, m) {
      var i :| Counts(t0, i) && SameClass(t0, i, m) && OrderAt(t0.links, c, i).Some?;
      assert Represented(t0, t, i);
      var v :| v in t.streams && SameClass(t0, v, i);
      assert Canonical(t0, t, v);
      assert i in CountedClass(t0, t0.streams[v].key);
      assert SameClass(t0, v, m);
    }
  }

  /** On all tables that end in an Outcome: a channel that played a class loses it exactly when the row of
      the class that is merged with itself comes after, or is, each member the channel played. */
  lemma ChannelLosesClassExactly(t0: Tables, t: Tables, c: int, m: int)
    requires Outcome(t0, t) && SoundTables(t0) && SameClass(t0, m, m) && OrderAt(t0.links, c, m).Some?
    ensures !Plays(t0, t, c, m) <==>
      exists d :: SelfMerged(t0, d) && SameClass(t0, d, m) &&
                  forall i :: SameClass(t0, i, m) && OrderAt(t0.links, c, i).Some? ==> i <= d
  {
    ClassKeptExactly(t0, t, c, m);
    if !PlayedCounted(t0, c, m) {
      assert !Counts(t0, m);
      var d :| SelfMerged(t0, d) && SameClass(t0, d, m) && m <= d;
      forall i | SameClass(t0, i, m) && OrderAt(t0.links, c, i).Some? ensures i <= d {
        assert !Counts(t0, i);
        var e :| SelfMerged(t0, e) && SameClass(t0, e, i) && i <= e;
        StoresOwnOnce(t0, d, e);
      }
    }
    forall d | SelfMerged(t0, d) && SameClass(t0, d, m) &&
               forall i :: SameClass(t0, i, m) && OrderAt(t0.links, c, i).Some? ==> i <= d
      ensures !PlayedCounted(t0, c, m)
    {
      forall i | SameClass(t0, i, m) && OrderAt(t0.links, c, i).Some? ensures !Counts(t0, i) {
        assert SameClass(t0, d, i);
      }
    }
  }

  /* The reported count */

  /** Rows the look-ahead found and the run deleted.  Nothing counts such a row unless the loop meets it
      afterwards in the same batch; it then counts twice, as processed and as merged, so either way the
      difference of the two counters leaves it out. */
  ghost function LostAhead(t0: Tables, t: Tables, p: Progress): set<int> {
    set k | k in p.seen && LookedUp(t0, k) && !SelfMerged(t0, k) && k !in t.streams
  }

  ghost function Kept(t: Tables, p: Progress): set<int> {
    set i | i in t.streams && i <= p.last
  }

  ghost predicate Tally(t0: Tables, t: Tables, p: Progress, processed: int, merged: int) {
    |Kept(t, p)| == processed - merged + |LostAhead(t0, t, p)|
  }

  /** The tally looks only at which rows are there. */
  lemma TallyStays(t0: Tables, t: Tables, t': Tables, p: Progress, processed: int, merged: int)
    requires Tally(t0, t, p, processed, merged) && t'.streams == t.streams
    ensures Tally(t0, t', p, processed, merged)
  {
    assert Kept(t', p) == Kept(t, p);
    assert LostAhead(t0, t', p) == LostAhead(t0, t, p);
  }

  /** Rows the look-ahead finds, except one that is merged with itself. */
  ghost function FoundAhead(t0: Tables): set<int> {
    set k | k in t0.streams && LookedUp(t0, k) && !SelfMerged(t0, k)
  }

  lemma SelfMergedIsBest(t0: Tables, d: int, i: int)
    requires SelfMerged(t0, d) && i < d && SameClass(t0, i, d)
    ensures !Outranks(t0, i, d)
  {
    BeatsIsStrictTotalOrder(InitialRank(t0, i), InitialRank(t0, d), InitialRank(t0, i));
  }

  lemma TallyStamp(t0: Tables, t: Tables, p: Progress, j: int, processed: int, merged: int)
    requires Next(t0, t, p, j) && Tally(t0, t, p, processed, merged)
    requires j !in p.seen && j in t.streams && !LookedUp(t0, j)
    ensures Tally(t0, Stamped(t, j, t0.streams[j].key), Met(p, {j}, j, t0.streams[j].key, j, {}), processed + 1, merged)
  {
    var t', p' := Stamped(t, j, t0.streams[j].key), Met(p, {j}, j, t0.streams[j].key, j, {});
    assert Kept(t', p') == Kept(t, p) + {j};
    assert LostAhead(t0, t', p') == LostAhead(t0, t, p);
  }

  lemma TallyLookAhead(t0: Tables, t: Tables, p: Progress, j: int, k: int, keep: int, drop: int, t': Tables, processed: int, merged: int)
    requires Next(t0, t, p, j) && Tally(t0, t, p, processed, merged)
    requires j in t.streams && k in t.streams && j !in p.seen && k !in p.seen && j < k
    requires LookedUp(t0, k) && !LookedUp(t0, j) && SameClass(t0, j, k)
    requires {keep, drop} == {j, k} && Outranks(t0, keep, drop)
    requires Consolidated(t, t', keep, drop, t0.streams[j].key)
    ensures Tally(t0, t', Met(p, {j, k}, j, t0.streams[j].key, keep, {drop}), processed + 1, merged + 1)
  {
    var p' := Met(p, {j, k}, j, t0.streams[j].key, keep, {drop});
    assert keep in {j, k} && drop in {j, k};
    assert t'.streams.Keys == t.streams.Keys - {drop};
    if keep == j {
      if SelfMerged(t0, k) {
        SelfMergedIsBest(t0, k, j);
      }
      TallyDropsAhead(t0, t, p, j, k, t', p');
    } else {
      assert Kept(t', p') == Kept(t, p);
      assert LostAhead(t0, t', p') == LostAhead(t0, t, p);
    }
  }

  /** The current row stays and the one found ahead goes: one more kept, one more skipped. */
  lemma TallyDropsAhead(t0: Tables, t: Tables, p: Progress, j: int, k: int, t': Tables, p': Progress)
    requires Next(t0, t, p, j) && t'.streams.Keys == t.streams.Keys - {k}
    requires j in t.streams && k in t.streams && j !in p.seen && k !in p.seen && j < k
    requires LookedUp(t0, k) && !LookedUp(t0, j) && !SelfMerged(t0, k)
    requires p'.seen == p.seen + {j, k} && p'.last == j
    ensures Kept(t', p') == Kept(t, p) + {j} && j !in Kept(t, p)
    ensures LostAhead(t0, t', p') == LostAhead(t0, t, p) + {k} && k !in LostAhead(t0, t, p)
  {
  }

  lemma TallyMergeHeld(t0: Tables, t: Tables, p: Progress, j: int, v: int, t': Tables, processed: int, merged: int)
    requires Next(t0, t, p, j) && Tally(t0, t, p, processed, merged)
    requires j in t.streams && j !in p.seen && v in p.seen && !LookedUp(t0, j)
    requires Consolidated(t, t', v, j, t0.streams[j].key)
    ensures Tally(t0, t', Met(p, {j}, j, t0.streams[j].key, v, {j}), processed + 1, merged + 1)
  {
    var p' := Met(p, {j}, j, t0.streams[j].key, v, {j});
    assert Kept(t', p') == Kept(t, p);
    assert LostAhead(t0, t', p') == LostAhead(t0, t, p);
  }

  lemma TallyMergeReplaced(t0: Tables, t: Tables, p: Progress, j: int, v: int, t': Tables, processed: int, merged: int)
    requires Next(t0, t, p, j) && Tally(t0, t, p, processed, merged)
    requires j in t.streams && v in t.streams && j !in p.seen && v in p.seen && !LookedUp(t0, j)
    requires v <= p.last && (LookedUp(t0, v) ==> SelfMerged(t0, v))
    requires Consolidated(t, t', j, v, t0.streams[j].key)
    ensures Tally(t0, t', Met(p, {j}, j, t0.streams[j].key, j, {v}), processed + 1, merged + 1)
  {
    var p' := Met(p, {j}, j, t0.streams[j].key, j, {v});
    assert Kept(t', p') == Kept(t, p) - {v} + {j};
    assert LostAhead(t0, t', p') == LostAhead(t0, t, p);
  }

  lemma TallyMergeAhead(t0: Tables, t: Tables, p: Progress, j: int, v: int, t': Tables, processed: int, merged: int)
    requires Next(t0, t, p, j) && Tally(t0, t, p, processed, merged)
    requires j in t.streams && v in t.streams && j !in p.seen && v in p.seen && !LookedUp(t0, j)
    requires j < v && LookedUp(t0, v) && Outranks(t0, j, v)
    requires Consolidated(t, t', j, v, t0.streams[j].key)
    ensures Tally(t0, t', Met(p, {j}, j, t0.streams[j].key, j, {v}), processed + 1, merged + 1)
  {
    var p' := Met(p, {j}, j, t0.streams[j].key, j, {v});
    if SelfMerged(t0, v) {
      SelfMergedIsBest(t0, v, j);
    }
    assert Kept(t', p') == Kept(t, p) + {j};
    assert LostAhead(t0, t', p') == LostAhead(t0, t, p) + {v};
  }

  lemma TallyMerge(t0: Tables, t: Tables, p: Progress, j: int, v: int, keep: int, drop: int, t': Tables, processed: int, merged: int)
    requires Inv(t0, t, p) && Next(t0, t, p, j) && Tally(t0, t, p, processed, merged)
    requires j in t.streams && v in t.streams && j !in p.seen && v in p.seen && !LookedUp(t0, j) && SameClass(t0, j, v)
    requires if v <= p.last then LookedUp(t0, v) ==> SelfMerged(t0, v) else LookedUp(t0, v)
    requires (if keep == j then drop == v else keep == v && drop == j) && Outranks(t0, keep, drop)
    requires Consolidated(t, t', keep, drop, t0.streams[j].key)
    ensures Tally(t0, t', Met(p, {j}, j, t0.streams[j].key, keep, {drop}), processed + 1, merged + 1)
  {
    if keep == v {
      TallyMergeHeld(t0, t, p, j, v, t', processed, merged);
    } else if v <= p.last {
      TallyMergeReplaced(t0, t, p, j, v, t', processed, merged);
    } else {
      TallyMergeAhead(t0, t, p, j, v, t', processed, merged);
    }
  }

  /** A row that was looked up and is not self-merged is gone once the loop has passed it. */
  lemma LookedUpLoses(t0: Tables, t: Tables, p: Progress, k: int)
    requires Inv(t0, t, p) && LookedUp(t0, k) && !SelfMerged(t0, k) && k <= p.last
    ensures k !in t.streams
  {
    var h := t0.streams[k].key;
    assert HeadStands(t0, t, p, h);
    forall d, i | SelfMerged(t0, d) && SameClass(t0, d, i) && SameClass(t0, i, k)
      ensures d == k
    {
      StoresOwnOnce(t0, d, k);
    }
    var i :| i < k && SameClass(t0, i, k) && !Outranks(t0, k, i);
    assert i in Active(t0, p, h);
  }

  lemma TallyGhost(t0: Tables, t: Tables, p: Progress, j: int, processed: int, merged: int)
    requires Next(t0, t, p, j) && Tally(t0, t, p, processed, merged)
    requires t0.streams[j].key in p.heads && j in p.seen && j !in t.streams
    ensures Tally(t0, t, Met(p, {j}, j, t0.streams[j].key, p.heads[t0.streams[j].key], {j}), processed + 1, merged + 1)
  {
    var p' := Met(p, {j}, j, t0.streams[j].key, p.heads[t0.streams[j].key], {j});
    assert Kept(t, p') == Kept(t, p);
    assert LostAhead(t0, t, p') == LostAhead(t0, t, p);
  }

  lemma TallySelf(t0: Tables, t: Tables, p: Progress, j: int, t': Tables, processed: int, merged: int)
    requires Next(t0, t, p, j) && Tally(t0, t, p, processed, merged)
    requires SelfMerged(t0, j) && j in p.seen && j in t.streams && t'.streams == t.streams - {j}
    ensures Tally(t0, t', Met(p, {j}, j, t0.streams[j].key, j, {j}), processed + 1, merged + 1)
  {
    var p' := Met(p, {j}, j, t0.streams[j].key, j, {j});
    assert Kept(t', p') == Kept(t, p);
    assert LostAhead(t0, t', p') == LostAhead(t0, t, p);
  }

  /** The reported final count falls short by the rows that were looked up and lost: it is exact
      when no look-ahead query found anything. */
  lemma FinalCount(t0: Tables, t: Tables, p: Progress, processed: int, merged: int)
    requires Inv(t0, t, p) && Over(t, p) && Tally(t0, t, p, processed, merged)
    ensures processed - merged == |t.streams| - |FoundAhead(t0)|
    ensures NoLookAhead(t0) ==> processed - merged == |t.streams|
  {
    OverMeansAllMet(t0, t, p);
    assert Kept(t, p) == t.streams.Keys;
    forall k | k in FoundAhead(t0)
      ensures k !in t.streams
    {
      if k in t.streams {
        LookedUpLoses(t0, t, p, k);
      }
    }
    assert LostAhead(t0, t, p) == FoundAhead(t0);
    assert NoLookAhead(t0) ==> FoundAhead(t0) == {};
  }
}
