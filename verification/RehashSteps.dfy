/** One lemma for each way a single row can pass through the loop of a rehash: each keeps Inv. */
module RehashSteps {
  import opened Options
  import opened StreamTables
  import opened RehashSpec

  /** Row `j` is the next one the loop meets: every row left in the table above `last` is at or above it. */
  ghost predicate Next(t0: Tables, t: Tables, p: Progress, j: int) {
    j in t0.streams && p.last < j && forall i :: i in t.streams && p.last < i ==> j <= i
  }

  /** Outside `cls` the two tables hold the same rows with the same links. */
  ghost predicate Elsewhere(t: Tables, t': Tables, cls: set<int>) {
    && (forall x :: x !in cls ==> (x in t'.streams <==> x in t.streams))
    && (forall x :: x !in cls && x in t.streams ==> t'.streams[x] == t.streams[x])
    && forall x, c {:trigger OrderAt(t'.links, c, x)} :: x !in cls ==> OrderAt(t'.links, c, x) == OrderAt(t.links, c, x)
  }

  lemma CarriesElsewhere(t0: Tables, t: Tables, t': Tables, v: int, g: set<int>, cls: set<int>)
    requires Carries(t0, t, v, g) && Elsewhere(t, t', cls) && v !in cls
    ensures Carries(t0, t', v, g)
  {
    forall c
      ensures MinOver(OrderAt(t'.links, c, v), t0.links, c, g)
    {
      assert MinOver(OrderAt(t.links, c, v), t0.links, c, g);
    }
  }

  lemma MovedElsewhere(t: Tables, t': Tables, source: int, target: int)
    requires LinksMoved(t.links, t'.links, source, target)
    requires forall x :: x != source && x != target ==> (x in t'.streams <==> x in t.streams)
    requires forall x :: x != source && x != target && x in t.streams ==> t'.streams[x] == t.streams[x]
    ensures Elsewhere(t, t', {source, target})
  {
  }

  lemma StoresOwnOnce(t0: Tables, i: int, j: int)
    requires SoundTables(t0) && StoresOwn(t0, i) && StoresOwn(t0, j) && SameClass(t0, i, j)
    ensures i == j
  {
  }

  /** A row that will be self-merged stands as the head of its class from its look-ahead on. */
  lemma AheadIsHead(t0: Tables, t: Tables, p: Progress, d: int)
    requires Inv(t0, t, p) && SelfMerged(t0, d) && d in p.seen && p.last < d
    ensures p.heads[t0.streams[d].key] == d && d in t.streams
  {
    var h := t0.streams[d].key;
    assert d in Active(t0, p, h) by {
      forall e | SelfMerged(t0, e) && SameClass(t0, e, d) && e <= p.last
        ensures e < d
      {
        StoresOwnOnce(t0, e, d);
      }
    }
    var v := p.heads[h];
    assert Carries(t0, t, v, Active(t0, p, h)) by {
      assert HeadStands(t0, t, p, h);
    }
    if v != d {
      if p.last < v {
        StoresOwnOnce(t0, v, d);
      }
      BeatsIsStrictTotalOrder(InitialRank(t0, v), InitialRank(t0, d), InitialRank(t0, v));
    }
  }

  /** Between the last row met and the next one there is no row left to self-merge. */
  lemma NoneSkipped(t0: Tables, t: Tables, p: Progress, j: int, d: int)
    requires Inv(t0, t, p) && Next(t0, t, p, j) && SelfMerged(t0, d) && d <= j
    ensures d <= p.last || d == j
  {
    UnseenIsUntouched(t0, t, p, d);
    if p.last < d && d in p.seen {
      AheadIsHead(t0, t, p, d);
    }
  }

  lemma ActiveElsewhere(t0: Tables, t: Tables, p: Progress, p': Progress, j: int, h: Hash)
    requires Inv(t0, t, p) && Next(t0, t, p, j) && h != t0.streams[j].key
    requires p'.last == j && p.seen <= p'.seen <= t0.streams.Keys
    requires forall i :: i in p'.seen - p.seen ==> t0.streams[i].key == t0.streams[j].key
    ensures Active(t0, p', h) == Active(t0, p, h)
  {
    forall d | SelfMerged(t0, d) && d <= j
      ensures d <= p.last || d == j
    {
      NoneSkipped(t0, t, p, j, d);
    }
    forall i | i in t0.streams && t0.streams[i].key == h
      ensures i in Active(t0, p', h) <==> i in Active(t0, p, h)
    {
    }
  }

  lemma ActiveHere(t0: Tables, t: Tables, p: Progress, p': Progress, j: int, added: set<int>)
    requires Inv(t0, t, p) && Next(t0, t, p, j) && !SelfMerged(t0, j)
    requires p'.last == j && p'.seen == p.seen + added && p'.seen <= t0.streams.Keys
    requires forall i :: i in added ==> j <= i && t0.streams[i].key == t0.streams[j].key
    ensures Active(t0, p', t0.streams[j].key) == Active(t0, p, t0.streams[j].key) + added
  {
    forall d | SelfMerged(t0, d) && d <= j
      ensures d <= p.last
    {
      NoneSkipped(t0, t, p, j, d);
    }
  }

  /** Assembles Inv after a step that touched only rows `cls` of the class of `j`. */
  lemma InvAfter(t0: Tables, t: Tables, p: Progress, t': Tables, p': Progress, j: int, cls: set<int>)
    requires Inv(t0, t, p) && Next(t0, t, p, j)
    requires SoundTables(t') && t'.streams.Keys <= t0.streams.Keys
    requires Elsewhere(t, t', cls) && cls <= p'.seen
    requires p'.last == j && j in p'.seen && p.seen <= p'.seen && Accounted(t0, p')
    requires forall i :: i in p'.seen - p.seen ==> t0.streams[i].key == t0.streams[j].key
    requires forall i :: i in cls ==> t0.streams[i].key == t0.streams[j].key
    requires forall i :: i in p'.dead - p.dead ==> t0.streams[i].key == t0.streams[j].key
    requires p.dead <= p'.dead
    requires t0.streams[j].key in p'.heads && p'.heads == p.heads[t0.streams[j].key := p'.heads[t0.streams[j].key]]
    requires HeadStands(t0, t', p', t0.streams[j].key)
    requires forall i :: i in p'.seen && t0.streams[i].key == t0.streams[j].key && i != p'.heads[t0.streams[j].key]
                         ==> i !in t'.streams
    ensures Inv(t0, t', p')
  {
    forall h | h in p'.heads && h != t0.streams[j].key
      ensures HeadStands(t0, t', p', h)
    {
      ActiveElsewhere(t0, t, p, p', j, h);
      assert HeadStands(t0, t, p, h);
      var v := p.heads[h];
      if Active(t0, p, h) != {} {
        CarriesElsewhere(t0, t, t', v, Active(t0, p, h), cls);
      }
    }
    forall i | i in t0.streams && i !in p'.seen
      ensures Untouched(t0, t', i)
    {
      assert Untouched(t0, t, i);
      CarriesElsewhere(t0, t, t', i, {i}, cls);
    }
  }

  /* The cases */

  ghost function Met(p: Progress, added: set<int>, j: int, h: Hash, head: int, dead: set<int>): Progress {
    Progress(p.seen + added, j, p.heads[h := head], p.dead + dead)
  }

  ghost function Stamped(t: Tables, i: int, h: Hash): Tables
    requires i in t.streams
  {
    t.(streams := t.streams[i := t.streams[i].(stored := Some(h))])
  }

  lemma StampedIsSound(t: Tables, i: int, h: Hash)
    requires SoundTables(t) && i in t.streams
    requires forall k :: k in t.streams && t.streams[k].stored == Some(h) ==> k == i
    ensures SoundTables(Stamped(t, i, h)) && Elsewhere(t, Stamped(t, i, h), {i})
  {
  }

  /** `t'` is `t` after `drop` was merged into `keep` and deleted, and `keep` was given the hash. */
  ghost predicate Consolidated(t: Tables, t': Tables, keep: int, drop: int, h: Hash) {
    && keep != drop && keep in t.streams
    && t'.streams == (t.streams - {drop})[keep := t.streams[keep].(stored := Some(h))]
    && LinksMoved(t.links, t'.links, drop, keep)
  }

  lemma UnseenIsUntouched(t0: Tables, t: Tables, p: Progress, i: int)
    requires Inv(t0, t, p) && i in t0.streams
    ensures i !in p.seen ==> Untouched(t0, t, i)
  {
  }

  lemma BelowIsSeen(t0: Tables, t: Tables, p: Progress, j: int)
    requires Inv(t0, t, p) && Next(t0, t, p, j)
    ensures forall i :: i in t0.streams && i < j ==> i in p.seen
  {
    forall i | i in t0.streams && i < j
      ensures i in p.seen
    {
      UnseenIsUntouched(t0, t, p, i);
    }
  }

  lemma FirstOfClass(t0: Tables, t: Tables, p: Progress, j: int)
    requires Inv(t0, t, p) && Next(t0, t, p, j) && t0.streams[j].key !in p.heads
    ensures Untouched(t0, t, j)
    ensures forall i :: SameClass(t0, i, j) ==> j <= i
    ensures Active(t0, p, t0.streams[j].key) == {}
  {
    BelowIsSeen(t0, t, p, j);
    UnseenIsUntouched(t0, t, p, j);
    assert forall i :: i in p.seen ==> t0.streams[i].key != t0.streams[j].key;
  }

  /** First of its class, and the look-ahead finds nothing. */
  lemma FreshStep(t0: Tables, t: Tables, p: Progress, j: int)
    requires Inv(t0, t, p) && Next(t0, t, p, j) && t0.streams[j].key !in p.heads
    requires forall k :: k in t.streams && t.streams[k].stored == Some(t0.streams[j].key) ==> k == j
    ensures j in t.streams && t.streams[j] == t0.streams[j]
    ensures Inv(t0, Stamped(t, j, t0.streams[j].key), Met(p, {j}, j, t0.streams[j].key, j, {}))
  {
    FirstOfClass(t0, t, p, j);
    var h := t0.streams[j].key;
    var t', p' := Stamped(t, j, h), Met(p, {j}, j, h, j, {});
    StampedIsSound(t, j, h);
    ActiveHere(t0, t, p, p', j, {j});
    assert Active(t0, p', h) == {j};
    assert Carries(t0, t', j, {j});
    assert HeadStands(t0, t', p', h);
    FreshAccounted(t0, t, p, j);
    InvAfter(t0, t, p, t', p', j, {j});
  }

  lemma FreshAccounted(t0: Tables, t: Tables, p: Progress, j: int)
    requires Inv(t0, t, p) && Next(t0, t, p, j) && t0.streams[j].key !in p.heads
    requires forall k :: k in t.streams && t.streams[k].stored == Some(t0.streams[j].key) ==> k == j
    ensures Accounted(t0, Met(p, {j}, j, t0.streams[j].key, j, {}))
  {
    FirstOfClass(t0, t, p, j);
    BelowIsSeen(t0, t, p, j);
    forall k | k in t0.streams
      ensures Resolved(t0, Met(p, {j}, j, t0.streams[j].key, j, {}), k)
    {
      assert Resolved(t0, p, k);
      UnseenIsUntouched(t0, t, p, k);
    }
  }

  lemma LookAheadHead(t0: Tables, t: Tables, p: Progress, j: int, k: int, keep: int, drop: int, t': Tables)
    requires Inv(t0, t, p) && Next(t0, t, p, j) && t0.streams[j].key !in p.heads
    requires k in t.streams && k != j && t.streams[k].stored == Some(t0.streams[j].key) && SameClass(t0, j, k)
    requires {keep, drop} == {j, k} && Outranks(t0, keep, drop)
    requires Consolidated(t, t', keep, drop, t0.streams[j].key)
    ensures j !in p.seen && k !in p.seen
    ensures HeadStands(t0, t', Met(p, {j, k}, j, t0.streams[j].key, keep, {drop}), t0.streams[j].key)
  {
    var p' := Met(p, {j, k}, j, t0.streams[j].key, keep, {drop});
    FirstOfClass(t0, t, p, j);
    UnseenIsUntouched(t0, t, p, k);
    ActiveHere(t0, t, p, p', j, {j, k});
    assert keep in {j, k} && drop in {j, k};
    CarriersJoin(t0, t, t', keep, {keep}, drop, {drop});
    assert Active(t0, p', t0.streams[j].key) == {keep} + {drop};
  }

  /** First of its class, and the look-ahead finds a later row `k` of the same class. */
  lemma LookAheadStep(t0: Tables, t: Tables, p: Progress, j: int, k: int, keep: int, drop: int, t': Tables)
    requires Inv(t0, t, p) && Next(t0, t, p, j) && t0.streams[j].key !in p.heads
    requires k in t.streams && k != j && t.streams[k].stored == Some(t0.streams[j].key) && SameClass(t0, j, k)
    requires {keep, drop} == {j, k} && Outranks(t0, keep, drop)
    requires Consolidated(t, t', keep, drop, t0.streams[j].key) && SoundTables(t')
    ensures Inv(t0, t', Met(p, {j, k}, j, t0.streams[j].key, keep, {drop}))
  {
    var p' := Met(p, {j, k}, j, t0.streams[j].key, keep, {drop});
    LookAheadHead(t0, t, p, j, k, keep, drop, t');
    LookAheadAccounted(t0, t, p, j, k, keep, drop);
    MovedElsewhere(t, t', drop, keep);
    assert {drop, keep} == {j, k};
    FirstOfClass(t0, t, p, j);
    InvAfter(t0, t, p, t', p', j, {drop, keep});
  }

  lemma LookAheadAccounted(t0: Tables, t: Tables, p: Progress, j: int, k: int, keep: int, drop: int)
    requires Inv(t0, t, p) && Next(t0, t, p, j) && t0.streams[j].key !in p.heads
    requires k in t.streams && k != j && t.streams[k].stored == Some(t0.streams[j].key) && SameClass(t0, j, k)
    requires {keep, drop} == {j, k}
    ensures Accounted(t0, Met(p, {j, k}, j, t0.streams[j].key, keep, {drop}))
  {
    FirstOfClass(t0, t, p, j);
    BelowIsSeen(t0, t, p, j);
    UnseenIsUntouched(t0, t, p, k);
    assert keep in {j, k} && drop in {j, k};
    assert LookedUp(t0, k);
    forall m | m in t0.streams
      ensures Resolved(t0, Met(p, {j, k}, j, t0.streams[j].key, keep, {drop}), m)
    {
      assert Resolved(t0, p, m);
    }
  }

  /** What is known when the class of `j` already has a head. */
  lemma ClassKnown(t0: Tables, t: Tables, p: Progress, j: int)
    requires Inv(t0, t, p) && Next(t0, t, p, j) && t0.streams[j].key in p.heads
    ensures forall i :: i in t0.streams && i < j ==> i in p.seen
    ensures StoresOwn(t0, j) ==> j in p.seen
    ensures forall k :: k in t.streams && t.streams[k].stored == Some(t0.streams[j].key) ==> k == p.heads[t0.streams[j].key]
  {
    BelowIsSeen(t0, t, p, j);
    var h := t0.streams[j].key;
    assert Resolved(t0, p, j);
    forall k | k in t.streams && t.streams[k].stored == Some(h)
      ensures k == p.heads[h]
    {
      assert Resolved(t0, p, k);
      UnseenIsUntouched(t0, t, p, k);
      assert k in p.seen ==> HeadStands(t0, t, p, t0.streams[k].key);
    }
  }

  lemma KnownAccounted(t0: Tables, t: Tables, p: Progress, j: int, head: int, dead: set<int>)
    requires Inv(t0, t, p) && Next(t0, t, p, j) && t0.streams[j].key in p.heads
    requires head in p.seen + {j} && SameClass(t0, head, j) && dead <= p.seen + {j}
    ensures Accounted(t0, Met(p, {j}, j, t0.streams[j].key, head, dead))
  {
    BelowIsSeen(t0, t, p, j);
    forall k | k in t0.streams
      ensures Resolved(t0, Met(p, {j}, j, t0.streams[j].key, head, dead), k)
    {
      assert Resolved(t0, p, k);
    }
  }

  lemma ReviveHead(t0: Tables, t: Tables, p: Progress, j: int)
    requires Inv(t0, t, p) && Next(t0, t, p, j) && t0.streams[j].key in p.heads
    requires p.heads[t0.streams[j].key] in p.dead
    ensures Untouched(t0, t, j)
    ensures HeadStands(t0, Stamped(t, j, t0.streams[j].key), Met(p, {j}, j, t0.streams[j].key, j, {}), t0.streams[j].key)
  {
    assert HeadStands(t0, t, p, t0.streams[j].key);
    VoidedHead(t0, t, p, j);
    UnseenIsUntouched(t0, t, p, j);
    ActiveHere(t0, t, p, Met(p, {j}, j, t0.streams[j].key, j, {}), j, {j});
    assert Active(t0, Met(p, {j}, j, t0.streams[j].key, j, {}), t0.streams[j].key) == {j};
    assert Carries(t0, Stamped(t, j, t0.streams[j].key), j, {j});
  }

  /** The head of the class was self-merged; `j` becomes the new head. */
  lemma ReviveStep(t0: Tables, t: Tables, p: Progress, j: int)
    requires Inv(t0, t, p) && Next(t0, t, p, j) && t0.streams[j].key in p.heads
    requires p.heads[t0.streams[j].key] in p.dead
    ensures j in t.streams && t.streams[j] == t0.streams[j]
    ensures forall k :: k in t.streams ==> t.streams[k].stored != Some(t0.streams[j].key)
    ensures Inv(t0, Stamped(t, j, t0.streams[j].key), Met(p, {j}, j, t0.streams[j].key, j, {}))
  {
    ReviveHead(t0, t, p, j);
    ClassKnown(t0, t, p, j);
    HeadIsGone(t0, t, p, t0.streams[j].key);
    KnownAccounted(t0, t, p, j, j, {});
    var t' := Stamped(t, j, t0.streams[j].key);
    StampedIsSound(t, j, t0.streams[j].key);
    InvAfter(t0, t, p, t', Met(p, {j}, j, t0.streams[j].key, j, {}), j, {j});
  }

  lemma HeadIsGone(t0: Tables, t: Tables, p: Progress, h: Hash)
    requires Inv(t0, t, p) && h in p.heads && p.heads[h] in p.dead
    ensures p.heads[h] !in t.streams
  {
    assert HeadStands(t0, t, p, h);
  }

  lemma VoidedHead(t0: Tables, t: Tables, p: Progress, j: int)
    requires Inv(t0, t, p) && Next(t0, t, p, j) && t0.streams[j].key in p.heads
    requires Active(t0, p, t0.streams[j].key) == {}
    ensures j !in p.seen && !SelfMerged(t0, j)
  {
    var v := p.heads[t0.streams[j].key];
    assert v !in Active(t0, p, t0.streams[j].key);
    var d :| SelfMerged(t0, d) && SameClass(t0, d, v) && d <= p.last && d >= v;
    if StoresOwn(t0, j) {
      StoresOwnOnce(t0, d, j);
    }
  }

  lemma MergeHead(t0: Tables, t: Tables, p: Progress, j: int, keep: int, drop: int, t': Tables)
    requires Inv(t0, t, p) && Next(t0, t, p, j) && t0.streams[j].key in p.heads
    requires j !in p.seen && p.heads[t0.streams[j].key] !in p.dead
    requires {keep, drop} == {j, p.heads[t0.streams[j].key]} && Outranks(t0, keep, drop)
    requires Consolidated(t, t', keep, drop, t0.streams[j].key)
    ensures HeadStands(t0, t', Met(p, {j}, j, t0.streams[j].key, keep, {drop}), t0.streams[j].key)
  {
    var h := t0.streams[j].key;
    var v, g := p.heads[h], Active(t0, p, h);
    ClassKnown(t0, t, p, j);
    assert HeadStands(t0, t, p, h);
    UnseenIsUntouched(t0, t, p, j);
    ActiveHere(t0, t, p, Met(p, {j}, j, h, keep, {drop}), j, {j});
    assert keep in {j, v} && drop in {j, v};
    if keep == j {
      CarriersJoin(t0, t, t', j, {j}, v, g);
      assert {j} + g == g + {j};
    } else {
      CarriersJoin(t0, t, t', v, g, j, {j});
    }
  }

  /** `j` meets the live head of its class, another row. */
  lemma MergeStep(t0: Tables, t: Tables, p: Progress, j: int, keep: int, drop: int, t': Tables)
    requires Inv(t0, t, p) && Next(t0, t, p, j) && t0.streams[j].key in p.heads
    requires j !in p.seen && p.heads[t0.streams[j].key] !in p.dead
    requires {keep, drop} == {j, p.heads[t0.streams[j].key]} && Outranks(t0, keep, drop)
    requires Consolidated(t, t', keep, drop, t0.streams[j].key) && SoundTables(t')
    ensures Inv(t0, t', Met(p, {j}, j, t0.streams[j].key, keep, {drop}))
  {
    MergeHead(t0, t, p, j, keep, drop, t');
    assert keep in {keep, drop} && drop in {keep, drop};
    KnownAccounted(t0, t, p, j, keep, {drop});
    MovedElsewhere(t, t', drop, keep);
    InvAfter(t0, t, p, t', Met(p, {j}, j, t0.streams[j].key, keep, {drop}), j, {drop, keep});
  }

  /** `j` was looked up and deleted earlier, but is still in the batch: nothing moves. */
  lemma GhostStep(t0: Tables, t: Tables, p: Progress, j: int)
    requires Inv(t0, t, p) && Next(t0, t, p, j) && t0.streams[j].key in p.heads
    requires j in p.seen && p.heads[t0.streams[j].key] != j && p.heads[t0.streams[j].key] !in p.dead
    ensures j !in t.streams && Outranks(t0, p.heads[t0.streams[j].key], j) && !SelfMerged(t0, j)
    ensures Inv(t0, t, Met(p, {j}, j, t0.streams[j].key, p.heads[t0.streams[j].key], {j}))
  {
    var h := t0.streams[j].key;
    var v := p.heads[h];
    var p' := Met(p, {j}, j, h, v, {j});
    assert HeadStands(t0, t, p, h);
    if SelfMerged(t0, j) {
      AheadIsHead(t0, t, p, j);
    }
    AheadIsActive(t0, t, p, j);
    ActiveHere(t0, t, p, p', j, {});
    assert p.seen + {j} == p.seen + {};
    assert Active(t0, p', h) == Active(t0, p, h);
    assert HeadStands(t0, t, p', h);
    KnownAccounted(t0, t, p, j, v, {j});
    InvAfter(t0, t, p, t, p', j, {});
  }

  lemma AheadIsActive(t0: Tables, t: Tables, p: Progress, j: int)
    requires Inv(t0, t, p) && j in p.seen && p.last < j
    ensures j in Active(t0, p, t0.streams[j].key)
  {
    forall d | SelfMerged(t0, d) && SameClass(t0, d, j) && d <= p.last
      ensures d < j
    {
      StoresOwnOnce(t0, d, j);
    }
  }

  lemma OwnHeadIsSelfMerged(t0: Tables, t: Tables, p: Progress, j: int)
    requires Inv(t0, t, p) && Next(t0, t, p, j) && t0.streams[j].key in p.heads
    requires p.heads[t0.streams[j].key] == j && j !in p.dead
    ensures SelfMerged(t0, j) && j in p.seen
  {
    var h := t0.streams[j].key;
    BelowIsSeen(t0, t, p, j);
    assert HeadStands(t0, t, p, h);
    forall i | i < j && SameClass(t0, i, j)
      ensures Outranks(t0, j, i)
    {
      forall d | SelfMerged(t0, d) && SameClass(t0, d, i)
        ensures d == j
      {
        StoresOwnOnce(t0, d, j);
      }
      assert i in Active(t0, p, h);
    }
  }

  /** `j` is the head of its own class: the loop merges it with itself and deletes it. */
  lemma SelfStep(t0: Tables, t: Tables, p: Progress, j: int, t': Tables)
    requires Inv(t0, t, p) && Next(t0, t, p, j) && t0.streams[j].key in p.heads
    requires p.heads[t0.streams[j].key] == j && j !in p.dead
    requires t'.streams == t.streams - {j} && LinksMoved(t.links, t'.links, j, j) && SoundTables(t')
    ensures SelfMerged(t0, j) && j in p.seen
    ensures Inv(t0, t', Met(p, {j}, j, t0.streams[j].key, j, {j}))
  {
    var h := t0.streams[j].key;
    var p' := Met(p, {j}, j, h, j, {j});
    OwnHeadIsSelfMerged(t0, t, p, j);
    forall i | i in p.seen && t0.streams[i].key == h
      ensures i <= j
    {
      if p.last < i {
        StoresOwnOnce(t0, i, j);
      }
    }
    assert Active(t0, p', h) == {};
    KnownAccounted(t0, t, p, j, j, {j});
    MovedElsewhere(t, t', j, j);
    assert {j, j} == {j};
    InvAfter(t0, t, p, t', p', j, {j});
  }
}
