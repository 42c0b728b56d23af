/** Two small tables on which a rehash destroys more than duplicates. */
module RehashExamples {
  import opened Options
  import opened Sets
  import opened StreamTables
  import opened RehashSpec
  import opened RehashOutcome
  import opened RehashTransitions

  /** Row 2 already stores the hash both rows get, and was updated later. */
  function TwoDuplicates(): Tables {
    Tables(
      map[1 := Stream("h", 0, None), 2 := Stream("h", 1, Some("h"))],
      map[10 := Link(7, 2, 0)])
  }

  lemma RankIn(t: Tables, id: int, l: int)
    requires UniquePairs(t.links) && id in t.streams
    ensures (forall k :: k in t.links ==> t.links[k].stream != id) ==> BestOrder(t.links, id) == None
    ensures t.links.Keys == {l} && t.links[l].stream == id ==> BestOrder(t.links, id) == Some(t.links[l].order)
  {
    BestOrderIsBest(t.links, id);
    if BestOrder(t.links, id).Some? {
      var c :| OrderAt(t.links, c, id) == BestOrder(t.links, id);
      var k :| LinkedBy(t.links, c, id, k);
      OrderAtLink(t.links, k);
    }
    if t.links.Keys == {l} && t.links[l].stream == id {
      OrderAtLink(t.links, l);
    }
  }

  /** Every run on the first table ends with no stream at all, and channel 7 loses its only one. */
  lemma WholeClassLost(t: Tables)
    requires SoundTables(t) && Outcome(TwoDuplicates(), t)
    ensures SoundTables(TwoDuplicates()) && Consistent(TwoDuplicates()) && !Safe(TwoDuplicates())
    ensures OrderAt(TwoDuplicates().links, 7, 2) == Some(0)
    ensures t.streams == map[] && forall s :: OrderAt(t.links, 7, s) == None
  {
    var t0 := TwoDuplicates();
    RankIn(t0, 1, 10);
    RankIn(t0, 2, 10);
    OrderAtLink(t0.links, 10);
    assert SameClass(t0, 1, 2) && SameClass(t0, 2, 2);
    assert SelfMerged(t0, 2);
    forall v
      ensures v !in t.streams
    {
      assert v in t.streams ==> Canonical(t0, t, v);
      assert v in t0.streams ==> SameClass(t0, 2, v);
    }
    NoElements(t.streams.Keys);
    forall s
      ensures OrderAt(t.links, 7, s) == None
    {
      NoLinkNoOrder(t.links, 7, s);
    }
  }

  /** Row 2 stores, from an earlier run, the hash that row 1 gets now, but its own new hash differs. */
  function StaleHash(): Tables {
    Tables(
      map[1 := Stream("a", 1, None), 2 := Stream("b", 0, Some("a"))],
      map[])
  }

  /** The first pass over the second table deletes row 2, which is no duplicate of row 1. */
  lemma NonDuplicateDeleted(found: Option<int>, s': State, ok: bool)
    requires Pass(State(StaleHash(), map[], {}, 0, 0, 0, []), 1, StaleHash().streams[1], found, s', ok)
    ensures !SameClass(StaleHash(), 1, 2) && !Consistent(StaleHash())
    ensures ok && 2 !in s'.t.streams && 1 in s'.t.streams
  {
    var t := StaleHash();
    assert t.streams[2].stored == Some(t.streams[1].key);
    RankIn(t, 1, 0);
    RankIn(t, 2, 0);
    assert found == Some(2);
  }
}
