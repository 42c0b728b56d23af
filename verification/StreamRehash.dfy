/** The stream rehash of core/tasks.py on its two tables, with the state its loop carries. */
module StreamRehash {
  import opened Options
  import opened Sets
  import opened StreamTables
  import opened RehashSpec
  import opened RehashOutcome
  import opened RehashTransitions
  import opened RehashBatches

  class RehashRun {
    var streams: Streams
    var links: Links
    var hashKeys: map<Hash, int>
    var deletedStreamIds: set<int>
    var lastProcessedId: int
    var totalProcessed: int
    var duplicatesMerged: int

    /** Every pair of streams handed to the choice of a survivor, in order. */
    ghost var merges: seq<Merge>

    ghost function Now(): Tables
      reads this
    {
      Tables(streams, links)
    }

    ghost function Here(): State
      reads this
    {
      State(Now(), hashKeys, deletedStreamIds, lastProcessedId, totalProcessed, duplicatesMerged, merges)
    }

    /** The constraints the database enforces: unique hashes, one link per channel and stream, and
        links only to streams that exist. */
    ghost predicate Valid()
      reads this
    {
      Sound(streams, links)
    }

    constructor (streams: Streams, links: Links)
      requires Sound(streams, links)
      ensures Valid() && Here() == State(Tables(streams, links), map[], {}, 0, 0, 0, [])
    {
      this.streams, this.links := streams, links;
      hashKeys, deletedStreamIds, lastProcessedId, totalProcessed, duplicatesMerged, merges := map[], {}, 0, 0, 0, [];
    }

    /** The lowest order among the links of the stream. */
    method GetBestChannelOrder(id: int) returns (best: Option<nat>)
      requires UniquePairs(links)
      ensures best == BestOrder(links, id)
    {
      best := None;
      ghost var orders := set l | l in links && links[l].stream == id :: links[l].order;
      var todo := links.Keys;
      while todo != {}
        invariant todo <= links.Keys
        invariant best.Some? ==> best.value in orders
        invariant forall l :: l in links && l !in todo && links[l].stream == id ==> best.Some? && best.value <= links[l].order
      {
        ghost var some := Element(todo);
        var l :| l in todo;
        if links[l].stream == id && (best.None? || links[l].order < best.value) {
          best := Some(links[l].order);
        }
        todo := todo - {l};
      }
    }

    method DetermineStreamToKeep(idA: int, rowA: Stream, idB: int, rowB: Stream) returns (keepA: bool)
      requires UniquePairs(links)
      ensures keepA <==> Beats(RankOf(rowA, links, idA), RankOf(rowB, links, idB))
      ensures var a, b := BestOrder(links, idA), BestOrder(links, idB);
        if a.Some? && b.Some? && a.value != b.value then keepA <==> a.value < b.value
        else if a.Some? != b.Some? then keepA <==> a.Some?
        else if rowA.updatedAt != rowB.updatedAt then keepA <==> rowA.updatedAt > rowB.updatedAt
        else keepA <==> idA < idB
    {
      var orderA := GetBestChannelOrder(idA);
      var orderB := GetBestChannelOrder(idB);
      keepA := KeepsFirst(Rank(orderA, rowA.updatedAt, idA), Rank(orderB, rowB.updatedAt, idB));
    }

    /** Moves the links of `source` to `target`; a channel already linked to the target keeps one row
        with the better order.  The rows of the source are visited in any order. */
    method MergeStreamRelationships(source: int, target: int)
      requires Sound(streams, links)
      requires target in streams || BestOrder(links, source).None?
      modifies this`links
      ensures Sound(streams, links) && LinksMoved(old(links), links, source, target)
      ensures forall l :: l in links ==> links[l].stream != source
    {
      ghost var links0 := links;
      var todo := set l | l in links && links[l].stream == source;
      NoneToMove(source, target);
      while todo != {}
        invariant Sound(streams, links)
        invariant target in streams || todo == {}
        invariant todo <= links.Keys
        invariant forall l :: l in links ==> (links[l].stream == source <==> l in todo)
        invariant forall c, s {:trigger OrderAt(links, c, s)} :: s != source && s != target ==> OrderAt(links, c, s) == OrderAt(links0, c, s)
        invariant source != target ==> forall c {:trigger OrderAt(links, c, target)} ::
            MinOrder(OrderAt(links, c, source), OrderAt(links, c, target)) == MinOrder(OrderAt(links0, c, source), OrderAt(links0, c, target))
      {
        ghost var some := Element(todo);
        var l :| l in todo;
        MoveLink(l, source, target);
        todo := todo - {l};
      }
      forall c
        ensures OrderAt(links, c, source).None?
      {
        NoLinkNoOrder(links, c, source);
      }
    }

    lemma NoneToMove(source: int, target: int)
      requires Sound(streams, links)
      requires target in streams || BestOrder(links, source).None?
      ensures target in streams || (set l | l in links && links[l].stream == source) == {}
    {
      BestOrderIsBest(links, source);
      forall l | l in links && links[l].stream == source
        ensures BestOrder(links, source).Some?
      {
        OrderAtLink(links, l);
      }
      if target !in streams {
        NoElements(set l | l in links && links[l].stream == source);
      }
    }

    /** One pass of the loop over the links of the source. */
    method MoveLink(l: int, source: int, target: int)
      requires Sound(streams, links) && l in links && links[l].stream == source && target in streams
      modifies this`links
      ensures Sound(streams, links)
      ensures links.Keys == if l in links then old(links.Keys) else old(links.Keys) - {l}
      ensures forall m :: m in links && m != l ==> links[m].stream == old(links)[m].stream
      ensures l in links ==> links[l].stream == target != source
      ensures forall c, s {:trigger OrderAt(links, c, s)} :: s != source && s != target ==> OrderAt(links, c, s) == OrderAt(old(links), c, s)
      ensures source != target ==> forall c {:trigger OrderAt(links, c, target)} ::
          MinOrder(OrderAt(links, c, source), OrderAt(links, c, target)) == MinOrder(OrderAt(old(links), c, source), OrderAt(old(links), c, target))
    {
      ghost var links0 := links;
      var row := links[l];
      var existing := FindLink(row.channel, target);
      if existing.Some? {
        var e := existing.value;
        if row.order < links[e].order {
          links := links[e := links[e].(order := row.order)];
        }
        ghost var links1 := links;
        links := links - {l};
        forall c, s
          ensures UniquePairs(links)
          ensures OrderAt(links, c, s) ==
            if c == row.channel && s == source then None
            else if c == row.channel && s == target then MinOrder(OrderAt(links0, c, source), OrderAt(links0, c, target))
            else OrderAt(links0, c, s)
        {
          OrderAtLink(links0, l);
          OrderAtLink(links0, e);
          OrderAtAfterWrite(links0, e, links1[e], c, s);
          assert links0[e := links0[e]] == links0;
          OrderAtAfterRemoval(links1, l, c, s);
        }
      } else {
        links := links[l := row.(stream := target)];
        NoLinkNoOrder(links0, row.channel, target);
        forall c, s
          ensures UniquePairs(links)
          ensures OrderAt(links, c, s) ==
            if c == row.channel && s == target then Some(row.order)
            else if c == row.channel && s == source then None
            else OrderAt(links0, c, s)
        {
          OrderAtAfterWrite(links0, l, links[l], c, s);
        }
        OrderAtLink(links0, l);
      }
    }

    method FindLink(c: int, s: int) returns (found: Option<int>)
      ensures found.Some? ==> LinkedBy(links, c, s, found.value)
      ensures found.None? ==> forall l :: !LinkedBy(links, c, s, l)
    {
      found := None;
      var todo := links.Keys;
      while todo != {}
        invariant todo <= links.Keys
        invariant found.Some? ==> LinkedBy(links, c, s, found.value)
        invariant found.None? ==> forall l :: LinkedBy(links, c, s, l) ==> l in todo
      {
        ghost var some := Element(todo);
        var l :| l in todo;
        if links[l].channel == c && links[l].stream == s {
          found := Some(l);
        }
        todo := todo - {l};
      }
    }

    /** Deletes the row, and with it the links that refer to it. */
    method DeleteStream(id: int)
      requires Sound(streams, links)
      modifies this`streams, this`links
      ensures streams == old(streams) - {id} && Sound(streams, links)
      ensures forall l :: l in links <==> l in old(links) && old(links)[l].stream != id
      ensures forall l :: l in links ==> links[l] == old(links)[l]
      ensures (forall l :: l in old(links) ==> old(links)[l].stream != id) ==> links == old(links)
    {
      streams := streams - {id};
      ghost var links0 := links;
      links := map l | l in links && links[l].stream != id :: links[l];
      if forall l :: l in links0 ==> links0[l].stream != id {
        forall l
          ensures l in links <==> l in links0
        {
        }
        assert links == links0;
      }
    }

    /** Writes stream_hash; fails when the row is gone or another row stores the hash. */
    method SaveHash(id: int, h: Hash) returns (ok: bool)
      requires Sound(streams, links)
      modifies this`streams
      ensures Sound(streams, links)
      ensures ok <==> CanStore(old(streams), id, h)
      ensures streams == if ok then old(streams)[id := old(streams)[id].(stored := Some(h))] else old(streams)
    {
      var other := FindByHash(h, id);
      ok := id in streams && other.None?;
      if ok {
        streams := streams[id := streams[id].(stored := Some(h))];
      }
    }

    /** A row other than `exclude` that stores the hash. */
    method FindByHash(h: Hash, exclude: int) returns (found: Option<int>)
      ensures found.Some? ==> found.value in streams && found.value != exclude && streams[found.value].stored == Some(h)
      ensures found.None? ==> forall k :: k in streams && streams[k].stored == Some(h) ==> k == exclude
    {
      found := None;
      var todo := streams.Keys;
      while todo != {}
        invariant todo <= streams.Keys
        invariant found.Some? ==> found.value in streams && found.value != exclude && streams[found.value].stored == Some(h)
        invariant found.None? ==> forall k :: k in streams && streams[k].stored == Some(h) && k != exclude ==> k in todo
      {
        ghost var some := Element(todo);
        var k :| k in todo;
        if k != exclude && streams[k].stored == Some(h) {
          found := Some(k);
        }
        todo := todo - {k};
      }
    }

    /** Moves the links of the loser to the survivor and deletes the loser. */
    method MergeAndDelete(drop: int, keep: int)
      requires Valid() && (keep in streams || BestOrder(links, drop).None?)
      modifies this`streams, this`links
      ensures Valid() && streams == old(streams) - {drop} && LinksMoved(old(links), links, drop, keep)
    {
      MergeStreamRelationships(drop, keep);
      DeleteStream(drop);
    }

    /** Writes the hash unless the row, as it was read, has it already. */
    method SaveHashIfNew(keep: int, keepRow: Stream, h: Hash) returns (ok: bool)
      requires Valid()
      modifies this`streams
      ensures Valid() && (ok <==> keepRow.stored == Some(h) || CanStore(old(streams), keep, h))
      ensures streams == if ok && keepRow.stored != Some(h) then old(streams)[keep := old(streams)[keep].(stored := Some(h))]
                         else old(streams)
    {
      ok := true;
      if keepRow.stored != Some(h) {
        ok := SaveHash(keep, h);
      }
    }

    /** The choice between a stream of the table and the current row, which may be gone: then it wins only
        against a stream without links. */
    method ChooseSurvivor(e: int, id: int, row: Stream) returns (keepsExisting: bool)
      requires Valid() && e in streams
      ensures keepsExisting <==> Beats(RankOf(streams[e], links, e), RankOf(row, links, id))
      ensures keepsExisting || id in streams || BestOrder(links, e).None?
    {
      keepsExisting := DetermineStreamToKeep(e, streams[e], id, row);
      AbsentTakesNothing(id, row, e, streams[e], keepsExisting);
    }

    /** Chooses the survivor of the tracked or found stream `e` and the current row, moves the links of
        the loser to it, deletes the loser first and only then writes the hash. */
    method Consolidate(e: int, id: int, row: Stream) returns (ok: bool)
      requires Valid() && e in streams
      modifies this
      ensures Valid() && Merges(old(Here()).(last := id), e, id, row, Here(), ok)
      ensures lastProcessedId == id
    {
      lastProcessedId := id;
      var existing := streams[e];
      var keepsExisting := ChooseSurvivor(e, id, row);
      var keep, keepRow, drop := id, row, e;
      if keepsExisting {
        keep, keepRow, drop := e, existing, id;
      }
      merges := merges + [Merge(e, id)];
      MergeAndDelete(drop, keep);
      deletedStreamIds := deletedStreamIds + {drop};
      duplicatesMerged := duplicatesMerged + 1;
      ok := SaveHashIfNew(keep, keepRow, row.key);
      if ok {
        hashKeys := hashKeys[row.key := keep];
        totalProcessed := totalProcessed + 1;
      }
    }

    lemma LinkedIsPresent(id: int)
      requires Sound(streams, links)
      ensures BestOrder(links, id).Some? ==> id in streams
    {
      BestOrderIsBest(links, id);
      if BestOrder(links, id).Some? {
        var c :| OrderAt(links, c, id) == BestOrder(links, id);
        var l :| LinkedBy(links, c, id, l);
      }
    }

    /** A row that is no longer in the table can win only against a row without links. */
    lemma AbsentTakesNothing(id: int, row: Stream, e: int, existing: Stream, keepsExisting: bool)
      requires Sound(streams, links) && e in streams
      requires keepsExisting <==> Beats(RankOf(existing, links, e), RankOf(row, links, id))
      ensures keepsExisting || id in streams || BestOrder(links, e).None?
    {
      LinkedIsPresent(id);
    }

    /** The row becomes the canonical one of its class. */
    method Adopt(id: int, h: Hash) returns (ok: bool)
      requires Valid()
      modifies this
      ensures Valid() && Adopts(old(Here()), id, h, Here(), ok)
    {
      lastProcessedId := id;
      ok := SaveHash(id, h);
      if ok {
        hashKeys := hashKeys[h := id];
        totalProcessed := totalProcessed + 1;
      }
    }

    /** The body of the loop for one row of a batch; false means an exception was raised. */
    method ProcessRow(id: int, row: Stream) returns (ok: bool, ghost found: Option<int>)
      requires Valid()
      modifies this
      ensures Valid() && Pass(old(Here()), id, row, found, Here(), ok)
    {
      var newHash := row.key;
      found := None;
      if newHash in hashKeys {
        var existingId := hashKeys[newHash];
        if existingId in deletedStreamIds {
          ok := Adopt(id, newHash);
        } else if existingId !in streams {
          deletedStreamIds := deletedStreamIds + {existingId};
          ok := Adopt(id, newHash);
        } else {
          ok := Consolidate(existingId, id, row);
        }
      } else {
        var existing := FindByHash(newHash, id);
        found := existing;
        if existing.Some? {
          ok := Consolidate(existing.value, id, row);
        } else {
          ok := Adopt(id, newHash);
        }
      }
    }

    /** The rows above `lastProcessedId` in the order of their ids, at most `size` of them. */
    method FetchBatch(size: nat) returns (batch: seq<(int, Stream)>)
      requires size > 0
      ensures IsBatch(streams, lastProcessedId, batch)
    {
      batch := [];
      var todo := set i | i in streams && lastProcessedId < i;
      while todo != {} && |batch| < size
        invariant Fetching(streams, lastProcessedId, batch, todo)
      {
        var i := Lowest(todo);
        FetchNext(streams, lastProcessedId, batch, todo, i);
        batch := batch + [(i, streams[i])];
        todo := todo - {i};
      }
      FetchedIsBatch(streams, lastProcessedId, batch, todo);
    }

    static method Lowest(s: set<int>) returns (low: int)
      requires s != {}
      ensures low in s && forall i :: i in s ==> low <= i
    {
      ghost var some := Element(s);
      low :| low in s;
      var todo := s - {low};
      while todo != {}
        invariant todo <= s && low in s
        invariant forall i :: i in s && i !in todo ==> low <= i
      {
        ghost var next := Element(todo);
        var i :| i in todo;
        if i < low {
          low := i;
        }
        todo := todo - {i};
      }
    }

    /** The rows of one batch in turn, up to the first exception. */
    method ProcessRows(batch: seq<(int, Stream)>, ghost t0: Tables, ghost seen: set<int>) returns (ok: bool, ghost seen': set<int>)
      requires Valid() && IsBatch(streams, lastProcessedId, batch)
      requires Good(t0, Here(), seen) && RowsOf(t0, streams)
      modifies this
      ensures Valid()
      ensures ok ==> Midway(t0, Here(), seen', old(streams), old(lastProcessedId), batch, |batch|)
      ensures !ok ==> !WithinClasses(t0, merges) && !Consistent(t0)
    {
      ghost var rows, last := streams, lastProcessedId;
      BatchIsAhead(t0, Here(), seen, batch);
      ok, seen' := true, seen;
      var k := 0;
      while k < |batch|
        invariant 0 <= k <= |batch| && Valid() && ok
        invariant Midway(t0, Here(), seen', rows, last, batch, k)
      {
        ghost var s, found := Here(), None;
        ok, found := ProcessRow(batch[k].0, batch[k].1);
        PassMidway(t0, s, seen', rows, last, batch, k, found, Here(), ok);
        if !ok {
          return;
        }
        seen' := SeenAfter(s, seen', batch[k].0, batch[k].1, found);
        k := k + 1;
      }
    }

    /** One batch as a transaction: on an exception both tables are rolled back. */
    method ProcessBatch(batch: seq<(int, Stream)>, ghost t0: Tables, ghost seen: set<int>) returns (ok: bool, ghost seen': set<int>)
      requires Valid() && IsBatch(streams, lastProcessedId, batch) && batch != []
      requires Good(t0, Here(), seen) && RowsOf(t0, streams)
      modifies this
      ensures Valid() && RowsOf(t0, streams)
      ensures ok ==> Good(t0, Here(), seen') && lastProcessedId == batch[|batch| - 1].0
      ensures !ok ==> streams == old(streams) && links == old(links) && !WithinClasses(t0, merges) && !Consistent(t0)
    {
      var streams0, links0 := streams, links;
      ok, seen' := ProcessRows(batch, t0, seen);
      if !ok {
        streams, links := streams0, links0;
      }
    }

    /** The batch loop; an exception ends it. */
    method ProcessBatches(batchSize: nat, ghost t0: Tables) returns (ok: bool, ghost seen: set<int>)
      requires Valid() && batchSize > 0 && Good(t0, Here(), {}) && RowsOf(t0, streams)
      modifies this
      ensures Valid()
      ensures ok ==> Good(t0, Here(), seen) && IsBatch(streams, lastProcessedId, [])
      ensures !ok ==> !WithinClasses(t0, merges) && !Consistent(t0)
    {
      ok, seen := true, {};
      var batch := FetchBatch(batchSize);
      while batch != []
        invariant ok && Valid() && Good(t0, Here(), seen) && RowsOf(t0, streams)
        invariant IsBatch(streams, lastProcessedId, batch)
        decreases Above(t0, lastProcessedId)
      {
        ghost var last := lastProcessedId;
        ok, seen := ProcessBatch(batch, t0, seen);
        if !ok {
          return;
        }
        FewerAbove(t0, last, lastProcessedId, batch[0].0);
        batch := FetchBatch(batchSize);
      }
    }

    /** The whole rehash, with the state its loop starts from. */
    method Rehash(batchSize: nat) returns (ok: bool, finalCount: int)
      requires Valid() && batchSize > 0 && forall i :: i in streams ==> 0 < i
      modifies this
      ensures Valid()
      ensures (forall i :: 0 <= i < |merges| ==> Genuine(old(Now()), merges[i])) <==> Safe(old(Now()))
      ensures Consistent(old(Now())) ==> ok && Outcome(old(Now()), Now())
      ensures Consistent(old(Now())) ==> finalCount == |streams| - |FoundAhead(old(Now()))|
      ensures NoLookAhead(old(Now())) ==> ok && Outcome(old(Now()), Now()) && finalCount == |streams|
    {
      ghost var t0, seen := Now(), {};
      hashKeys, deletedStreamIds, lastProcessedId, totalProcessed, duplicatesMerged, merges := map[], {}, 0, 0, 0, [];
      GoodInitially(t0);
      ok, seen := ProcessBatches(batchSize, t0);
      NoLookAheadIsConsistent(t0);
      finalCount := 0;
      if ok {
        finalCount := totalProcessed - duplicatesMerged;
        RunIsOver(t0, Here(), seen);
      } else {
        BadMergeIsNotGenuine(t0, merges);
      }
    }

    static lemma NoLookAheadIsConsistent(t0: Tables)
      ensures NoLookAhead(t0) ==> Consistent(t0)
    {
    }

    static ghost function Above(t0: Tables, last: int): set<int> {
      set i | i in t0.streams && last < i
    }

    static lemma FewerAbove(t0: Tables, last: int, last': int, i: int)
      requires last < i <= last' && i in t0.streams
      ensures Above(t0, last') < Above(t0, last)
    {
      assert i in Above(t0, last) && i !in Above(t0, last');
      forall x | x in Above(t0, last')
        ensures x in Above(t0, last)
      {
      }
    }

    static lemma BadMergeIsNotGenuine(t0: Tables, merges: seq<Merge>)
      requires !WithinClasses(t0, merges)
      ensures exists i :: 0 <= i < |merges| && !Genuine(t0, merges[i])
    {
      var i :| 0 <= i < |merges| && !SameClass(t0, merges[i].existing, merges[i].current);
      assert !Genuine(t0, merges[i]);
    }
  }
}
