/** What a rehash promises about the tables it leaves, and the invariant its loop keeps. */
module RehashSpec {
  import opened Options
  import opened StreamTables

  datatype Tables = Tables(streams: Streams, links: Links)

  ghost predicate SoundTables(t: Tables) {
    Sound(t.streams, t.links)
  }

  ghost function InitialRank(t0: Tables, i: int): Rank
    requires i in t0.streams
  {
    RankOf(t0.streams[i], t0.links, i)
  }

  ghost predicate SameClass(t0: Tables, i: int, j: int) {
    i in t0.streams && j in t0.streams && t0.streams[i].key == t0.streams[j].key
  }

  ghost predicate Outranks(t0: Tables, i: int, j: int) {
    SameClass(t0, i, j) && Beats(InitialRank(t0, i), InitialRank(t0, j))
  }

  /** The row already stores the hash the run computes for it. */
  ghost predicate StoresOwn(t0: Tables, i: int) {
    i in t0.streams && t0.streams[i].stored == Some(t0.streams[i].key)
  }

  /** The look-ahead query reaches the row: an earlier row of its class finds it by its stored hash. */
  ghost predicate LookedUp(t0: Tables, i: int) {
    StoresOwn(t0, i) && exists k :: k < i && SameClass(t0, k, i)
  }

  /** The look-ahead keeps this row, so that the loop later meets it as its own duplicate. */
  ghost predicate SelfMerged(t0: Tables, i: int) {
    LookedUp(t0, i) && forall k :: k < i && SameClass(t0, k, i) ==> Outranks(t0, i, k)
  }

  /** No later row stores the new hash of an earlier row of another class. */
  ghost predicate Consistent(t0: Tables) {
    forall i, j :: i in t0.streams && j in t0.streams && i < j && t0.streams[j].stored == Some(t0.streams[i].key)
                   ==> SameClass(t0, i, j)
  }

  /** The condition under which the run merges duplicates and nothing else: whenever a later row
      still stores the new hash of an earlier one, both are of one class and some earlier row of
      that class outranks the later one. */
  ghost predicate Safe(t0: Tables) {
    Consistent(t0) && forall i :: !SelfMerged(t0, i)
  }

  /** No look-ahead query finds a row. */
  ghost predicate NoLookAhead(t0: Tables) {
    forall i, j :: i in t0.streams && j in t0.streams && i < j ==> t0.streams[j].stored != Some(t0.streams[i].key)
  }

  /** The members of a class that count: those after the self-merged one, if there is one. */
  ghost predicate Counts(t0: Tables, i: int) {
    i in t0.streams && forall d :: SelfMerged(t0, d) && SameClass(t0, d, i) ==> d < i
  }

  /* Minima of positions */

  ghost predicate MinOver(o: Option<nat>, ls: Links, c: int, g: set<int>) {
    && (o.Some? ==> exists i :: i in g && OrderAt(ls, c, i) == o)
    && forall i :: i in g && OrderAt(ls, c, i).Some? ==> o.Some? && o.value <= OrderAt(ls, c, i).value
  }

  /** Row `v` stands for the group `g` of initial rows: it is the best of them, and every channel
      plays it at the best position it gave to any of them. */
  ghost predicate Carries(t0: Tables, t: Tables, v: int, g: set<int>) {
    && v in g && v in t.streams && v in t0.streams
    && t.streams[v].key == t0.streams[v].key && t.streams[v].updatedAt == t0.streams[v].updatedAt
    && (forall i :: i in g && i != v ==> Outranks(t0, v, i))
    && forall c :: MinOver(OrderAt(t.links, c, v), t0.links, c, g)
  }

  /** The links of `source` moved to `target`, one row per channel kept at its better position. */
  ghost predicate LinksMoved(before: Links, after: Links, source: int, target: int) {
    forall c, s {:trigger OrderAt(after, c, s)} :: OrderAt(after, c, s) ==
      if s == source then None
      else if s == target then MinOrder(OrderAt(before, c, source), OrderAt(before, c, target))
      else OrderAt(before, c, s)
  }

  lemma CarrierBestAtMost(t0: Tables, t: Tables, v: int, g: set<int>)
    requires SoundTables(t0) && SoundTables(t) && Carries(t0, t, v, g)
    requires BestOrder(t0.links, v).Some?
    ensures BestOrder(t.links, v).Some? && BestOrder(t.links, v).value <= BestOrder(t0.links, v).value
  {
    BestOrderIsBest(t0.links, v);
    BestOrderIsBest(t.links, v);
    var c :| OrderAt(t0.links, c, v) == BestOrder(t0.links, v);
    assert MinOver(OrderAt(t.links, c, v), t0.links, c, g);
  }

  lemma CarrierBestAtLeast(t0: Tables, t: Tables, v: int, g: set<int>)
    requires SoundTables(t0) && SoundTables(t) && Carries(t0, t, v, g)
    requires BestOrder(t.links, v).Some?
    ensures BestOrder(t0.links, v).Some? && BestOrder(t0.links, v).value <= BestOrder(t.links, v).value
  {
    BestOrderIsBest(t.links, v);
    var c :| OrderAt(t.links, c, v) == BestOrder(t.links, v);
    assert MinOver(OrderAt(t.links, c, v), t0.links, c, g);
    var i :| i in g && OrderAt(t0.links, c, i) == BestOrder(t.links, v);
    BestOrderIsBest(t0.links, i);
    assert i != v ==> Outranks(t0, v, i);
  }

  lemma CarrierKeepsRank(t0: Tables, t: Tables, v: int, g: set<int>)
    requires SoundTables(t0) && SoundTables(t) && Carries(t0, t, v, g)
    ensures RankOf(t.streams[v], t.links, v) == InitialRank(t0, v)
  {
    if BestOrder(t0.links, v).Some? {
      CarrierBestAtMost(t0, t, v, g);
    }
    if BestOrder(t.links, v).Some? {
      CarrierBestAtLeast(t0, t, v, g);
    }
  }

  lemma MinOverUnion(a: Option<nat>, b: Option<nat>, ls: Links, c: int, g: set<int>, h: set<int>)
    requires MinOver(a, ls, c, g) && MinOver(b, ls, c, h)
    ensures MinOver(MinOrder(a, b), ls, c, g + h)
  {
    var m := MinOrder(a, b);
    if m.Some? {
      if m == a {
        var i :| i in g && OrderAt(ls, c, i) == a;
        assert i in g + h;
      } else {
        var i :| i in h && OrderAt(ls, c, i) == b;
        assert i in g + h;
      }
    }
  }

  lemma CarriersJoin(t0: Tables, t: Tables, t': Tables, keep: int, g: set<int>, drop: int, h: set<int>)
    requires Carries(t0, t, keep, g) && Carries(t0, t, drop, h) && keep != drop
    requires Outranks(t0, keep, drop)
    requires LinksMoved(t.links, t'.links, drop, keep)
    requires keep in t'.streams && t'.streams[keep].key == t.streams[keep].key
    requires t'.streams[keep].updatedAt == t.streams[keep].updatedAt
    ensures Carries(t0, t', keep, g + h)
  {
    forall i | i in g + h && i != keep
      ensures Outranks(t0, keep, i)
    {
      if i !in g && i != drop {
        BeatsIsStrictTotalOrder(InitialRank(t0, keep), InitialRank(t0, drop), InitialRank(t0, i));
      }
    }
    forall c
      ensures MinOver(OrderAt(t'.links, c, keep), t0.links, c, g + h)
    {
      MinOverUnion(OrderAt(t.links, c, drop), OrderAt(t.links, c, keep), t0.links, c, h, g);
      assert h + g == g + h;
    }
  }

  /* The invariant of the loop */

  /** Where a run stands: the rows it has accounted for, the last id it met, its table of hashes
      and the ids it has recorded as deleted. */
  datatype Progress = Progress(seen: set<int>, last: int, heads: map<Hash, int>, dead: set<int>)

  /** The rows whose fate the head of class `h` carries. */
  ghost function Active(t0: Tables, p: Progress, h: Hash): set<int> {
    set i | i in p.seen && i in t0.streams && t0.streams[i].key == h
         && forall d :: SelfMerged(t0, d) && SameClass(t0, d, i) && d <= p.last ==> d < i
  }

  ghost predicate Accounted(t0: Tables, p: Progress) {
    && p.dead <= p.seen <= t0.streams.Keys
    && (forall i :: i in t0.streams && i <= p.last ==> i in p.seen)
    && (forall i :: i in p.seen ==> t0.streams[i].key in p.heads)
    && (forall h :: h in p.heads ==> p.heads[h] in p.seen && t0.streams[p.heads[h]].key == h)
    && (forall i :: i in p.seen && p.last < i ==> LookedUp(t0, i))
    && (forall k {:trigger Resolved(t0, p, k)} :: k in t0.streams ==> Resolved(t0, p, k))
  }

  /** Once the class whose new hash row `k` stores has a head, `k` is accounted for; and unless `k`
      is of that class itself, it comes before all of it. */
  ghost predicate Resolved(t0: Tables, p: Progress, k: int)
    requires k in t0.streams
  {
    t0.streams[k].stored.Some? && t0.streams[k].stored.value in p.heads ==>
      && k in p.seen
      && (StoresOwn(t0, k) || forall i :: i in t0.streams && t0.streams[i].key == t0.streams[k].stored.value ==> k < i)
  }

  ghost predicate HeadStands(t0: Tables, t: Tables, p: Progress, h: Hash)
    requires h in p.heads
  {
    var v := p.heads[h];
    if Active(t0, p, h) == {} then
      v in p.dead && v !in t.streams
    else
      v !in p.dead && Carries(t0, t, v, Active(t0, p, h)) && t.streams[v].stored == Some(h)
  }

  ghost predicate Untouched(t0: Tables, t: Tables, i: int) {
    i in t0.streams && i in t.streams && t.streams[i] == t0.streams[i] && Carries(t0, t, i, {i})
  }

  ghost predicate Inv(t0: Tables, t: Tables, p: Progress) {
    && SoundTables(t0) && SoundTables(t)
    && t.streams.Keys <= t0.streams.Keys
    && Accounted(t0, p)
    && (forall h {:trigger HeadStands(t0, t, p, h)} :: h in p.heads ==> HeadStands(t0, t, p, h))
    && (forall i {:trigger Untouched(t0, t, i)} :: i in t0.streams && i !in p.seen ==> Untouched(t0, t, i))
    && (forall i :: i in p.seen && i != p.heads[t0.streams[i].key] ==> i !in t.streams)
  }

  lemma UntouchedInitially(t0: Tables, i: int)
    requires i in t0.streams
    ensures Untouched(t0, t0, i)
  {
    forall c
      ensures MinOver(OrderAt(t0.links, c, i), t0.links, c, {i})
    {
    }
  }

  lemma InvInitially(t0: Tables)
    requires SoundTables(t0) && forall i :: i in t0.streams ==> 0 < i
    ensures Inv(t0, t0, Progress({}, 0, map[], {}))
  {
    forall i | i in t0.streams
      ensures Untouched(t0, t0, i)
    {
      UntouchedInitially(t0, i);
    }
  }
}
