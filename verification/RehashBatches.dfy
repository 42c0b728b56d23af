/** core/tasks.py: the batches of the rehash loop, and the end of the run. */
module RehashBatches {
  import opened Options
  import opened StreamTables
  import opened RehashSpec
  import opened RehashSteps
  import opened RehashOutcome
  import opened RehashTransitions

  ghost predicate InBatch(batch: seq<(int, Stream)>, i: int) {
    exists k :: 0 <= k < |batch| && batch[k].0 == i
  }

  /** The lowest rows above `last`, by id: every other row above it comes after the whole batch. */
  ghost predicate IsBatch(rows: Streams, last: int, batch: seq<(int, Stream)>) {
    && (forall k :: 0 <= k < |batch| ==> batch[k].0 in rows && rows[batch[k].0] == batch[k].1 && last < batch[k].0)
    && (forall k, l :: 0 <= k < l < |batch| ==> batch[k].0 < batch[l].0)
    && (forall i :: i in rows && last < i ==> InBatch(batch, i) || (batch != [] && batch[|batch| - 1].0 < i))
  }

  /** While a batch is fetched: the rows in `todo` are those above the batch so far. */
  ghost predicate Fetching(rows: Streams, last: int, batch: seq<(int, Stream)>, todo: set<int>) {
    && (forall i :: i in todo ==> i in rows && last < i)
    && (forall i :: i in rows && last < i ==> i in todo || InBatch(batch, i))
    && (forall k :: 0 <= k < |batch| ==> batch[k].0 in rows && rows[batch[k].0] == batch[k].1 && last < batch[k].0)
    && (forall k, i :: 0 <= k < |batch| && i in todo ==> batch[k].0 < i)
    && (forall k, l :: 0 <= k < l < |batch| ==> batch[k].0 < batch[l].0)
  }

  lemma FetchNext(rows: Streams, last: int, batch: seq<(int, Stream)>, todo: set<int>, i: int)
    requires Fetching(rows, last, batch, todo) && i in todo && forall j :: j in todo ==> i <= j
    ensures Fetching(rows, last, batch + [(i, rows[i])], todo - {i})
  {
    InBatchGrows(batch, (i, rows[i]));
  }

  lemma FetchedIsBatch(rows: Streams, last: int, batch: seq<(int, Stream)>, todo: set<int>)
    requires Fetching(rows, last, batch, todo) && (batch == [] ==> todo == {})
    ensures IsBatch(rows, last, batch)
  {
  }

  lemma InBatchGrows(batch: seq<(int, Stream)>, entry: (int, Stream))
    ensures InBatch(batch + [entry], entry.0)
    ensures forall i :: InBatch(batch, i) ==> InBatch(batch + [entry], i)
  {
    var longer := batch + [entry];
    assert longer[|batch|] == entry;
    forall i | InBatch(batch, i)
      ensures InBatch(longer, i)
    {
      var k :| 0 <= k < |batch| && batch[k].0 == i;
      assert longer[k].0 == i;
    }
  }

  /** Rows keep the columns the rehash does not write. */
  ghost predicate RowsOf(t0: Tables, rows: Streams) {
    forall i :: i in rows ==> i in t0.streams && rows[i].key == t0.streams[i].key && rows[i].updatedAt == t0.streams[i].updatedAt
  }

  lemma PassKeepsRows(t0: Tables, s: State, id: int, row: Stream, found: Option<int>, s': State, ok: bool)
    requires RowsOf(t0, s.t.streams) && Pass(s, id, row, found, s', ok) && ok
    ensures RowsOf(t0, s'.t.streams) && s'.t.streams.Keys <= s.t.streams.Keys && s'.last == id
  {
  }

  /** A row of a batch was read as it was at the start, even if it is never met with its links. */
  lemma SnapshotIsInitial(t0: Tables, s: State, seen: set<int>, i: int)
    requires OnTrack(t0, s, seen) && i in s.t.streams && s.last < i
    ensures s.t.streams[i] == t0.streams[i]
  {
    var p := Progressed(s, seen);
    UnseenIsUntouched(t0, s.t, p, i);
    if i in seen {
      HeadIsActiveless(t0, s.t, p, t0.streams[i].key);
      assert HeadStands(t0, s.t, p, t0.streams[i].key);
    }
  }

  /** The part of a batch still ahead. */
  ghost predicate Ahead(t0: Tables, s: State, batch: seq<(int, Stream)>, k: nat) {
    && (forall l :: k <= l < |batch| ==> Meetable(t0, s, batch[l]))
    && (forall l, m :: k <= l < m < |batch| ==> batch[l].0 < batch[m].0)
    && (forall i, l :: i in s.t.streams && s.last < i && l == k < |batch| ==> batch[l].0 <= i)
  }

  ghost predicate Meetable(t0: Tables, s: State, entry: (int, Stream)) {
    && entry.0 in t0.streams && s.last < entry.0
    && entry.1.key == t0.streams[entry.0].key && entry.1.updatedAt == t0.streams[entry.0].updatedAt
    && (WithinClasses(t0, s.merges) ==> entry.1 == t0.streams[entry.0])
  }

  lemma BatchIsAhead(t0: Tables, s: State, seen: set<int>, batch: seq<(int, Stream)>)
    requires Good(t0, s, seen) && RowsOf(t0, s.t.streams) && IsBatch(s.t.streams, s.last, batch)
    ensures Ahead(t0, s, batch, 0)
  {
    forall l | 0 <= l < |batch|
      ensures Meetable(t0, s, batch[l])
    {
      if WithinClasses(t0, s.merges) {
        SnapshotIsInitial(t0, s, seen, batch[l].0);
      }
    }
  }

  lemma PassMovesOn(t0: Tables, s: State, rows: Streams, last: int, batch: seq<(int, Stream)>, k: nat, found: Option<int>, s': State, ok: bool)
    requires IsBatch(rows, last, batch) && s.t.streams.Keys <= rows.Keys && last <= s.last
    requires k < |batch| && Ahead(t0, s, batch, k) && Pass(s, batch[k].0, batch[k].1, found, s', ok) && ok
    requires RowsOf(t0, s.t.streams)
    ensures Ahead(t0, s', batch, k + 1)
  {
    PassKeepsRows(t0, s, batch[k].0, batch[k].1, found, s', ok);
    MergesGrow(t0, s, batch[k].0, batch[k].1, found, s', ok);
    forall l | k + 1 <= l < |batch|
      ensures Meetable(t0, s', batch[l])
    {
      assert Meetable(t0, s, batch[l]);
    }
    forall i | i in s'.t.streams && s'.last < i && k + 1 < |batch|
      ensures batch[k + 1].0 <= i
    {
      assert i in rows;
      if InBatch(batch, i) {
        var l :| 0 <= l < |batch| && batch[l].0 == i;
      }
    }
  }

  /** Inside a batch, `k` of its rows done. */
  ghost predicate Midway(t0: Tables, s: State, seen: set<int>, rows: Streams, last: int, batch: seq<(int, Stream)>, k: nat) {
    && Good(t0, s, seen) && RowsOf(t0, s.t.streams)
    && IsBatch(rows, last, batch) && s.t.streams.Keys <= rows.Keys && last <= s.last
    && Ahead(t0, s, batch, k)
    && (0 < k <= |batch| ==> s.last == batch[k - 1].0)
  }

  lemma PassMidway(t0: Tables, s: State, seen: set<int>, rows: Streams, last: int, batch: seq<(int, Stream)>, k: nat,
                   found: Option<int>, s': State, ok: bool)
    requires k < |batch| && Midway(t0, s, seen, rows, last, batch, k) && SoundTables(s'.t)
    requires Pass(s, batch[k].0, batch[k].1, found, s', ok)
    ensures ok ==> Midway(t0, s', SeenAfter(s, seen, batch[k].0, batch[k].1, found), rows, last, batch, k + 1)
    ensures !ok ==> !WithinClasses(t0, s'.merges) && !Consistent(t0)
  {
    assert Meetable(t0, s, batch[k]);
    PassIsGood(t0, s, seen, batch[k].0, batch[k].1, found, s', ok);
    if ok {
      PassKeepsRows(t0, s, batch[k].0, batch[k].1, found, s', ok);
      PassMovesOn(t0, s, rows, last, batch, k, found, s', ok);
    }
  }

  /** Over a whole run the merges are genuine exactly when the tables were safe. */
  lemma GenuineIffSafe(t0: Tables, s: State, seen: set<int>)
    requires Good(t0, s, seen) && (forall i :: i in s.t.streams ==> i <= s.last)
    ensures (forall i :: 0 <= i < |s.merges| ==> Genuine(t0, s.merges[i])) <==> Safe(t0)
    ensures WithinClasses(t0, s.merges) <==> Consistent(t0)
  {
    if WithinClasses(t0, s.merges) {
      var p := Progressed(s, seen);
      OverMeansOutcome(t0, s.t, p);
      OverMeansAllMet(t0, s.t, p);
      forall d | SelfMerged(t0, d)
        ensures d <= s.last
      {
        if s.last < d {
          AheadIsHead(t0, s.t, p, d);
        }
      }
      forall i | 0 <= i < |s.merges| && !Genuine(t0, s.merges[i])
        ensures SelfMerged(t0, s.merges[i].current)
      {
      }
      forall d | SelfMerged(t0, d)
        ensures exists i :: 0 <= i < |s.merges| && !Genuine(t0, s.merges[i])
      {
        var i :| 0 <= i < |s.merges| && s.merges[i] == Merge(d, d);
        assert !Genuine(t0, s.merges[i]);
      }
    } else {
      var i :| 0 <= i < |s.merges| && !SameClass(t0, s.merges[i].existing, s.merges[i].current);
      assert !Genuine(t0, s.merges[i]);
    }
  }

  /** On safe tables every tracked hash leads, throughout the run, to a row that is there, stores that
      hash and has not been deleted: the branches for deleted targets are never taken. */
  lemma TrackedTargetsAreLive(t0: Tables, s: State, seen: set<int>, h: Hash)
    requires Good(t0, s, seen) && Safe(t0) && h in s.hashKeys
    ensures var v := s.hashKeys[h];
      v !in s.deleted && v in s.t.streams && s.t.streams[v].stored == Some(h) && s.t.streams[v].key == h
  {
    var p := Progressed(s, seen);
    HeadIsActiveless(t0, s.t, p, h);
    assert HeadStands(t0, s.t, p, h);
    assert p.heads[h] in Active(t0, p, h) || exists d :: SelfMerged(t0, d);
  }

  /** What a completed run has established. */
  lemma RunIsOver(t0: Tables, s: State, seen: set<int>)
    requires Good(t0, s, seen) && IsBatch(s.t.streams, s.last, [])
    ensures (forall i :: 0 <= i < |s.merges| ==> Genuine(t0, s.merges[i])) <==> Safe(t0)
    ensures Consistent(t0) ==> Outcome(t0, s.t) && s.processed - s.merged == |s.t.streams| - |FoundAhead(t0)|
    ensures NoLookAhead(t0) ==> Consistent(t0) && s.processed - s.merged == |s.t.streams|
  {
    forall i | i in s.t.streams
      ensures i <= s.last
    {
      assert s.last < i ==> InBatch([], i);
    }
    GenuineIffSafe(t0, s, seen);
    if WithinClasses(t0, s.merges) {
      OverMeansOutcome(t0, s.t, Progressed(s, seen));
      FinalCount(t0, s.t, Progressed(s, seen), s.processed, s.merged);
    }
  }
}
