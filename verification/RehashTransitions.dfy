/** One pass of the rehash loop as a relation between states, and why it keeps the invariant. */
module RehashTransitions {
  import opened Options
  import opened Sets
  import opened StreamTables
  import opened RehashSpec
  import opened RehashSteps
  import opened RehashOutcome

  /** The two streams handed to the choice of a survivor: the tracked or found one, and the current row. */
  datatype Merge = Merge(existing: int, current: int)

  datatype State = State(
    t: Tables,
    hashKeys: map<Hash, int>,
    deleted: set<int>,
    last: int,
    processed: int,
    merged: int,
    merges: seq<Merge>)

  ghost predicate CanStore(rows: Streams, id: int, h: Hash) {
    id in rows && forall k :: k in rows && rows[k].stored == Some(h) ==> k == id
  }

  /** The current row becomes the canonical one of its class, if its hash can be written. */
  ghost predicate Adopts(s: State, id: int, h: Hash, s': State, ok: bool) {
    && (ok <==> CanStore(s.t.streams, id, h))
    && s'.last == id && s'.merged == s.merged && s'.merges == s.merges && s'.deleted == s.deleted
    && (ok ==> s'.t == Stamped(s.t, id, h) && s'.hashKeys == s.hashKeys[h := id] && s'.processed == s.processed + 1)
  }

  /** The existing stream `e`, a row of the table, and the current one are merged into one. */
  ghost predicate Merges(s: State, e: int, id: int, row: Stream, s': State, ok: bool)
    requires e in s.t.streams
  {
    var h, existing := row.key, s.t.streams[e];
    var keepsExisting := Beats(RankOf(existing, s.t.links, e), RankOf(row, s.t.links, id));
    var keep, drop := if keepsExisting then e else id, if keepsExisting then id else e;
    var unwritten := (if keepsExisting then existing else row).stored == Some(h);
    && LinksMoved(s.t.links, s'.t.links, drop, keep)
    && s'.last == id && s'.merges == s.merges + [Merge(e, id)]
    && s'.deleted == s.deleted + {drop} && s'.merged == s.merged + 1
    && (ok <==> unwritten || CanStore(s.t.streams - {drop}, keep, h))
    && (ok ==> s'.hashKeys == s.hashKeys[h := keep] && s'.processed == s.processed + 1)
    && (ok && unwritten ==> s'.t.streams == s.t.streams - {drop})
    && (ok && !unwritten ==> s'.t.streams == (s.t.streams - {drop})[keep := s.t.streams[keep].(stored := Some(h))])
  }

  /** The pass for row `id`, read as `row` when its batch was fetched; `found` is what the look-ahead
      query returned, if it was made. */
  ghost predicate Pass(s: State, id: int, row: Stream, found: Option<int>, s': State, ok: bool) {
    var h := row.key;
    if h in s.hashKeys then
      if s.hashKeys[h] in s.deleted then
        Adopts(s, id, h, s', ok)
      else if s.hashKeys[h] !in s.t.streams then
        Adopts(s.(deleted := s.deleted + {s.hashKeys[h]}), id, h, s', ok)
      else
        Merges(s, s.hashKeys[h], id, row, s', ok)
    else
      match found
      case Some(k) => k in s.t.streams && k != id && s.t.streams[k].stored == Some(h) && Merges(s, k, id, row, s', ok)
      case None => (forall k :: k in s.t.streams && s.t.streams[k].stored == Some(h) ==> k == id) && Adopts(s, id, h, s', ok)
  }

  /* The invariant over the whole state */

  ghost predicate Genuine(t0: Tables, m: Merge) {
    m.existing != m.current && SameClass(t0, m.existing, m.current)
  }

  ghost predicate WithinClasses(t0: Tables, merges: seq<Merge>) {
    forall i :: 0 <= i < |merges| ==> SameClass(t0, merges[i].existing, merges[i].current)
  }

  ghost function Progressed(s: State, seen: set<int>): Progress {
    Progress(seen, s.last, s.hashKeys, s.deleted)
  }

  /** The merges of a row with itself are those of the self-merged rows met so far. */
  ghost predicate SelfMergesLogged(t0: Tables, s: State) {
    && (forall i :: 0 <= i < |s.merges| && s.merges[i].existing == s.merges[i].current ==> SelfMerged(t0, s.merges[i].current))
    && forall d :: SelfMerged(t0, d) && d <= s.last ==> Merge(d, d) in s.merges
  }

  ghost predicate OnTrack(t0: Tables, s: State, seen: set<int>) {
    && Inv(t0, s.t, Progressed(s, seen))
    && Tally(t0, s.t, Progressed(s, seen), s.processed, s.merged)
    && SelfMergesLogged(t0, s)
  }

  /** As long as every merge stayed within a class the run is on track; the first that did not shows
      that the tables were not consistent. */
  ghost predicate Good(t0: Tables, s: State, seen: set<int>) {
    if WithinClasses(t0, s.merges) then OnTrack(t0, s, seen) else !Consistent(t0)
  }

  ghost predicate Meets(t0: Tables, s: State, id: int, row: Stream) {
    && id in t0.streams && t0.streams[id].key == row.key && t0.streams[id].updatedAt == row.updatedAt
    && (WithinClasses(t0, s.merges) ==> Next(t0, s.t, Progressed(s, {}), id) && row == t0.streams[id])
  }

  lemma GoodInitially(t0: Tables)
    requires SoundTables(t0) && forall i :: i in t0.streams ==> 0 < i
    ensures Good(t0, State(t0, map[], {}, 0, 0, 0, []), {})
  {
    InvInitially(t0);
    var p := Progress({}, 0, map[], {});
    NoneKept(t0, p);
    assert LostAhead(t0, t0, p) == {};
  }

  lemma NoneKept(t: Tables, p: Progress)
    requires forall i :: i in t.streams ==> p.last < i
    ensures Kept(t, p) == {}
  {
    NoElements(Kept(t, p));
  }

  /* Each way through the loop */

  lemma StepAdoptsFresh(t0: Tables, s: State, seen: set<int>, id: int, s': State, ok: bool)
    requires OnTrack(t0, s, seen) && Next(t0, s.t, Progressed(s, seen), id)
    requires t0.streams[id].key !in s.hashKeys
    requires forall k :: k in s.t.streams && s.t.streams[k].stored == Some(t0.streams[id].key) ==> k == id
    requires Adopts(s, id, t0.streams[id].key, s', ok)
    ensures ok && OnTrack(t0, s', seen + {id})
  {
    var p := Progressed(s, seen);
    FirstOfClass(t0, s.t, p, id);
    FreshStep(t0, s.t, p, id);
    NewlyPassed(t0, s.t, p, id);
    AdoptedOnTrack(t0, s, seen, id, s', ok);
  }

  /** Adopting a row that can be stamped, and is no self-merged one, keeps the run on track. */
  lemma AdoptedOnTrack(t0: Tables, s: State, seen: set<int>, id: int, s': State, ok: bool)
    requires OnTrack(t0, s, seen) && Next(t0, s.t, Progressed(s, seen), id)
    requires id !in seen && !LookedUp(t0, id) && !SelfMerged(t0, id) && CanStore(s.t.streams, id, t0.streams[id].key)
    requires forall d :: SelfMerged(t0, d) && d <= id ==> d <= s.last || d == id
    requires Inv(t0, Stamped(s.t, id, t0.streams[id].key), Met(Progressed(s, seen), {id}, id, t0.streams[id].key, id, {}))
    requires Adopts(s, id, t0.streams[id].key, s', ok)
    ensures ok && OnTrack(t0, s', seen + {id})
  {
    TallyStamp(t0, s.t, Progressed(s, seen), id, s.processed, s.merged);
    assert Progressed(s', seen + {id}) == Met(Progressed(s, seen), {id}, id, t0.streams[id].key, id, {});
  }

  /** A self-merged row is never first of its class, so none is passed silently. */
  lemma NewlyPassed(t0: Tables, t: Tables, p: Progress, id: int)
    requires Inv(t0, t, p) && Next(t0, t, p, id)
    ensures forall d :: SelfMerged(t0, d) && d <= id ==> d <= p.last || d == id
    ensures t0.streams[id].key !in p.heads ==> !SelfMerged(t0, id)
  {
    forall d | SelfMerged(t0, d) && d <= id
      ensures d <= p.last || d == id
    {
      NoneSkipped(t0, t, p, id, d);
    }
    if t0.streams[id].key !in p.heads {
      FirstOfClass(t0, t, p, id);
    }
  }

  lemma StepRevives(t0: Tables, s: State, seen: set<int>, id: int, s': State, ok: bool)
    requires OnTrack(t0, s, seen) && Next(t0, s.t, Progressed(s, seen), id)
    requires t0.streams[id].key in s.hashKeys && s.hashKeys[t0.streams[id].key] in s.deleted
    requires Adopts(s, id, t0.streams[id].key, s', ok)
    ensures ok && OnTrack(t0, s', seen + {id})
  {
    var p := Progressed(s, seen);
    RevivedIsNew(t0, s.t, p, id);
    ReviveStep(t0, s.t, p, id);
    NewlyPassed(t0, s.t, p, id);
    AdoptedOnTrack(t0, s, seen, id, s', ok);
  }

  lemma RevivedIsNew(t0: Tables, t: Tables, p: Progress, id: int)
    requires Inv(t0, t, p) && Next(t0, t, p, id) && t0.streams[id].key in p.heads && p.heads[t0.streams[id].key] in p.dead
    ensures id !in p.seen && !LookedUp(t0, id) && !SelfMerged(t0, id)
  {
    HeadIsActiveless(t0, t, p, t0.streams[id].key);
    VoidedHead(t0, t, p, id);
    ClassKnown(t0, t, p, id);
  }

  lemma HeadIsActiveless(t0: Tables, t: Tables, p: Progress, h: Hash)
    requires Inv(t0, t, p) && h in p.heads
    ensures p.heads[h] in p.dead <==> Active(t0, p, h) == {}
    ensures p.heads[h] !in p.dead ==> p.heads[h] in t.streams && t.streams[p.heads[h]].stored == Some(h)
    ensures p.heads[h] !in p.dead ==> t.streams[p.heads[h]].key == h
    ensures p.heads[h] !in p.dead ==> RankOf(t.streams[p.heads[h]], t.links, p.heads[h]) == InitialRank(t0, p.heads[h])
  {
    assert HeadStands(t0, t, p, h);
    if p.heads[h] !in p.dead {
      CarrierKeepsRank(t0, t, p.heads[h], Active(t0, p, h));
    }
  }

  lemma StepLooksAhead(t0: Tables, s: State, seen: set<int>, id: int, k: int, s': State, ok: bool)
    requires OnTrack(t0, s, seen) && Next(t0, s.t, Progressed(s, seen), id) && SoundTables(s'.t)
    requires WithinClasses(t0, s.merges)
    requires t0.streams[id].key !in s.hashKeys
    requires k in s.t.streams && k != id && s.t.streams[k].stored == Some(t0.streams[id].key)
    requires Merges(s, k, id, t0.streams[id], s', ok)
    ensures WithinClasses(t0, s'.merges) ==> ok && OnTrack(t0, s', seen + {id, k})
    ensures !WithinClasses(t0, s'.merges) ==> !Consistent(t0)
  {
    var p, h := Progressed(s, seen), t0.streams[id].key;
    LookedUpRow(t0, s.t, p, id, k);
    assert s'.merges[|s.merges|] == Merge(k, id);
    if SameClass(t0, k, id) {
      var keepsFound := Beats(InitialRank(t0, k), InitialRank(t0, id));
      var keep, drop := if keepsFound then k else id, if keepsFound then id else k;
      RanksDecide(t0, k, id);
      MergeIsConsolidation(s, k, id, t0.streams[id], s', ok, keep, drop);
      assert Progressed(s', seen + {id, k}) == Met(p, {id, k}, id, h, keep, {drop});
      LookAheadStep(t0, s.t, p, id, k, keep, drop, s'.t);
      TallyLookAhead(t0, s.t, p, id, k, keep, drop, s'.t, s.processed, s.merged);
      NewlyPassed(t0, s.t, p, id);
    }
  }

  lemma RanksDecide(t0: Tables, a: int, b: int)
    requires SameClass(t0, a, b) && a != b
    ensures if Beats(InitialRank(t0, a), InitialRank(t0, b)) then Outranks(t0, a, b) else Outranks(t0, b, a)
  {
    BeatsIsStrictTotalOrder(InitialRank(t0, a), InitialRank(t0, b), InitialRank(t0, a));
  }

  lemma LookedUpRow(t0: Tables, t: Tables, p: Progress, id: int, k: int)
    requires Inv(t0, t, p) && Next(t0, t, p, id) && t0.streams[id].key !in p.heads
    requires k in t.streams && k != id && t.streams[k].stored == Some(t0.streams[id].key)
    ensures Untouched(t0, t, id) && Untouched(t0, t, k) && id !in p.seen && k !in p.seen && id < k
    ensures !SameClass(t0, k, id) ==> !Consistent(t0)
    ensures SameClass(t0, k, id) ==> LookedUp(t0, k)
    ensures !LookedUp(t0, id)
    ensures RankOf(t.streams[k], t.links, k) == InitialRank(t0, k)
    ensures RankOf(t0.streams[id], t.links, id) == InitialRank(t0, id)
  {
    FirstOfClass(t0, t, p, id);
    assert k in p.seen ==> HeadStands(t0, t, p, t0.streams[k].key);
    UnseenIsUntouched(t0, t, p, k);
    CarrierKeepsRank(t0, t, k, {k});
    CarrierKeepsRank(t0, t, id, {id});
    assert SameClass(t0, id, k) ==> LookedUp(t0, k);
  }

  lemma StepMerges(t0: Tables, s: State, seen: set<int>, id: int, s': State, ok: bool)
    requires OnTrack(t0, s, seen) && Next(t0, s.t, Progressed(s, seen), id) && SoundTables(s'.t)
    requires t0.streams[id].key in s.hashKeys && id !in seen
    requires s.hashKeys[t0.streams[id].key] in s.t.streams && s.hashKeys[t0.streams[id].key] !in s.deleted
    requires Merges(s, s.hashKeys[t0.streams[id].key], id, t0.streams[id], s', ok)
    ensures ok && OnTrack(t0, s', seen + {id})
  {
    var p, h := Progressed(s, seen), t0.streams[id].key;
    var v := p.heads[h];
    ClassKnown(t0, s.t, p, id);
    HeadIsActiveless(t0, s.t, p, h);
    UnseenIsUntouched(t0, s.t, p, id);
    CarrierKeepsRank(t0, s.t, id, {id});
    assert SameClass(t0, v, id);
    RanksDecide(t0, v, id);
    var keepsHead := Beats(InitialRank(t0, v), InitialRank(t0, id));
    var keep, drop := if keepsHead then v else id, if keepsHead then id else v;
    MergeIsConsolidation(s, v, id, t0.streams[id], s', ok, keep, drop);
    assert Progressed(s', seen + {id}) == Met(p, {id}, id, h, keep, {drop});
    MergeStep(t0, s.t, p, id, keep, drop, s'.t);
    HeadsPassedAreKept(t0, s.t, p, v);
    TallyMerge(t0, s.t, p, id, v, keep, drop, s'.t, s.processed, s.merged);
    NewlyPassed(t0, s.t, p, id);
  }

  lemma HeadsPassedAreKept(t0: Tables, t: Tables, p: Progress, v: int)
    requires Inv(t0, t, p) && v in p.seen && v in t.streams
    ensures v <= p.last && LookedUp(t0, v) ==> SelfMerged(t0, v)
    ensures p.last < v ==> LookedUp(t0, v)
  {
    if v <= p.last && LookedUp(t0, v) && !SelfMerged(t0, v) {
      LookedUpLoses(t0, t, p, v);
    }
  }

  /** A merge of two rows, of which only the tracked one stores the hash, is a Consolidated step. */
  lemma MergeIsConsolidation(s: State, v: int, id: int, row: Stream, s': State, ok: bool, keep: int, drop: int)
    requires v in s.t.streams && id in s.t.streams && v != id && s.t.streams[id] == row
    requires s.t.streams[v].stored == Some(row.key) && row.stored != Some(row.key)
    requires forall k :: k in s.t.streams && s.t.streams[k].stored == Some(row.key) ==> k == v
    requires Merges(s, v, id, row, s', ok)
    requires keep == if Beats(RankOf(s.t.streams[v], s.t.links, v), RankOf(row, s.t.links, id)) then v else id
    requires drop == if keep == v then id else v
    ensures ok && Consolidated(s.t, s'.t, keep, drop, row.key)
  {
    if keep == v {
      assert s.t.streams - {id} == (s.t.streams - {id})[v := s.t.streams[v].(stored := Some(row.key))];
    }
  }

  lemma StepGhost(t0: Tables, s: State, seen: set<int>, id: int, s': State, ok: bool)
    requires OnTrack(t0, s, seen) && Next(t0, s.t, Progressed(s, seen), id) && SoundTables(s'.t)
    requires t0.streams[id].key in s.hashKeys && id in seen && s.hashKeys[t0.streams[id].key] != id
    requires s.hashKeys[t0.streams[id].key] in s.t.streams && s.hashKeys[t0.streams[id].key] !in s.deleted
    requires Merges(s, s.hashKeys[t0.streams[id].key], id, t0.streams[id], s', ok)
    ensures ok && OnTrack(t0, s', seen + {id})
  {
    var p, h := Progressed(s, seen), t0.streams[id].key;
    var v := p.heads[h];
    HeadIsActiveless(t0, s.t, p, h);
    GhostStep(t0, s.t, p, id);
    AbsentIsUnlinked(s.t, id);
    assert Beats(RankOf(s.t.streams[v], s.t.links, v), RankOf(t0.streams[id], s.t.links, id));
    GhostMerge(s, v, id, t0.streams[id], s', ok);
    GhostRemains(t0, s.t, s'.t, Met(p, {id}, id, h, v, {id}));
    assert Progressed(s', seen + {id}) == Met(p, {id}, id, h, v, {id});
    TallyGhost(t0, s.t, p, id, s.processed, s.merged);
    TallyStays(t0, s.t, s'.t, Met(p, {id}, id, h, v, {id}), s.processed + 1, s.merged + 1);
    NewlyPassed(t0, s.t, p, id);
  }

  /** Merging away a row that is gone already changes no table. */
  lemma GhostMerge(s: State, e: int, id: int, row: Stream, s': State, ok: bool)
    requires SoundTables(s.t) && e in s.t.streams && id !in s.t.streams && s.t.streams[e].stored == Some(row.key)
    requires Beats(RankOf(s.t.streams[e], s.t.links, e), RankOf(row, s.t.links, id)) && Merges(s, e, id, row, s', ok)
    ensures ok && s'.t.streams == s.t.streams && Elsewhere(s.t, s'.t, {})
    ensures s'.hashKeys == s.hashKeys[row.key := e] && s'.deleted == s.deleted + {id} && s'.last == id
    ensures s'.processed == s.processed + 1 && s'.merged == s.merged + 1 && s'.merges == s.merges + [Merge(e, id)]
  {
    AbsentIsUnlinked(s.t, id);
    assert s.t.streams - {id} == s.t.streams;
  }

  lemma AbsentIsUnlinked(t: Tables, id: int)
    requires SoundTables(t) && id !in t.streams
    ensures BestOrder(t.links, id).None? && forall c :: OrderAt(t.links, c, id).None?
  {
    forall c
      ensures OrderAt(t.links, c, id).None?
    {
      NoLinkNoOrder(t.links, c, id);
    }
    BestOrderIsBest(t.links, id);
  }

  lemma GhostRemains(t0: Tables, t: Tables, t': Tables, p: Progress)
    requires Inv(t0, t, p) && SoundTables(t') && t'.streams == t.streams && Elsewhere(t, t', {})
    ensures Inv(t0, t', p)
  {
    forall h | h in p.heads
      ensures HeadStands(t0, t', p, h)
    {
      assert HeadStands(t0, t, p, h);
      if Active(t0, p, h) != {} {
        CarriesElsewhere(t0, t, t', p.heads[h], Active(t0, p, h), {});
      }
    }
    forall i | i in t0.streams && i !in p.seen
      ensures Untouched(t0, t', i)
    {
      assert Untouched(t0, t, i);
      CarriesElsewhere(t0, t, t', i, {i}, {});
    }
  }

  lemma StepMergesSelf(t0: Tables, s: State, seen: set<int>, id: int, s': State, ok: bool)
    requires OnTrack(t0, s, seen) && Next(t0, s.t, Progressed(s, seen), id) && SoundTables(s'.t)
    requires t0.streams[id].key in s.hashKeys && s.hashKeys[t0.streams[id].key] == id
    requires id in s.t.streams && id !in s.deleted
    requires Merges(s, id, id, t0.streams[id], s', ok)
    ensures ok && OnTrack(t0, s', seen + {id})
  {
    var p, h := Progressed(s, seen), t0.streams[id].key;
    HeadIsActiveless(t0, s.t, p, h);
    OwnHeadIsSelfMerged(t0, s.t, p, id);
    SelfStep(t0, s.t, p, id, s'.t);
    assert Progressed(s', seen + {id}) == Met(p, {id}, id, h, id, {id});
    TallySelf(t0, s.t, p, id, s'.t, s.processed, s.merged);
    NewlyPassed(t0, s.t, p, id);
    assert s'.merges[|s.merges|] == Merge(id, id);
  }

  /** The rows accounted for after the pass. */
  ghost function SeenAfter(s: State, seen: set<int>, id: int, row: Stream, found: Option<int>): set<int> {
    if row.key !in s.hashKeys && found.Some? then seen + {id, found.value} else seen + {id}
  }

  /** A row whose hash is tracked already: whichever of the four cases it is, the run stays on track. */
  lemma KnownHashStaysOnTrack(t0: Tables, s: State, seen: set<int>, id: int, found: Option<int>, s': State, ok: bool)
    requires OnTrack(t0, s, seen) && Next(t0, s.t, Progressed(s, seen), id) && SoundTables(s'.t)
    requires t0.streams[id].key in s.hashKeys && Pass(s, id, t0.streams[id], found, s', ok)
    ensures ok && OnTrack(t0, s', seen + {id})
    ensures s.hashKeys[t0.streams[id].key] !in s.deleted ==> SameClass(t0, s.hashKeys[t0.streams[id].key], id)
  {
    var v := s.hashKeys[t0.streams[id].key];
    HeadIsActiveless(t0, s.t, Progressed(s, seen), t0.streams[id].key);
    if v in s.deleted {
      StepRevives(t0, s, seen, id, s', ok);
    } else if v == id {
      StepMergesSelf(t0, s, seen, id, s', ok);
    } else if id in seen {
      StepGhost(t0, s, seen, id, s', ok);
    } else {
      StepMerges(t0, s, seen, id, s', ok);
    }
  }

  lemma KnownHashIsGood(t0: Tables, s: State, seen: set<int>, id: int, found: Option<int>, s': State, ok: bool)
    requires OnTrack(t0, s, seen) && Next(t0, s.t, Progressed(s, seen), id) && SoundTables(s'.t) && WithinClasses(t0, s.merges)
    requires t0.streams[id].key in s.hashKeys && Pass(s, id, t0.streams[id], found, s', ok)
    ensures ok && Good(t0, s', seen + {id})
  {
    KnownHashStaysOnTrack(t0, s, seen, id, found, s', ok);
    var v := s.hashKeys[t0.streams[id].key];
    if v in s.deleted {
      assert s'.merges == s.merges;
    } else {
      HeadIsActiveless(t0, s.t, Progressed(s, seen), t0.streams[id].key);
      assert s'.merges == s.merges + [Merge(v, id)];
    }
    assert WithinClasses(t0, s'.merges);
  }

  /** Every pass keeps the invariant, and can fail only on tables that were not consistent. */
  lemma PassIsGood(t0: Tables, s: State, seen: set<int>, id: int, row: Stream, found: Option<int>, s': State, ok: bool)
    requires Good(t0, s, seen) && Meets(t0, s, id, row) && Pass(s, id, row, found, s', ok) && SoundTables(s'.t)
    ensures ok ==> Good(t0, s', SeenAfter(s, seen, id, row, found))
    ensures !ok ==> !WithinClasses(t0, s'.merges) && !Consistent(t0)
  {
    MergesGrow(t0, s, id, row, found, s', ok);
    if WithinClasses(t0, s.merges) {
      assert Next(t0, s.t, Progressed(s, seen), id);
      if row.key in s.hashKeys {
        KnownHashIsGood(t0, s, seen, id, found, s', ok);
      } else if found.Some? {
        StepLooksAhead(t0, s, seen, id, found.value, s', ok);
      } else {
        StepAdoptsFresh(t0, s, seen, id, s', ok);
      }
    }
  }

  lemma MergesGrow(t0: Tables, s: State, id: int, row: Stream, found: Option<int>, s': State, ok: bool)
    requires Pass(s, id, row, found, s', ok)
    ensures !WithinClasses(t0, s.merges) ==> !WithinClasses(t0, s'.merges)
    ensures s'.merges == s.merges || (exists e :: s'.merges == s.merges + [Merge(e, id)])
    ensures s'.merges != s.merges && row.key in s.hashKeys ==> s'.merges == s.merges + [Merge(s.hashKeys[row.key], id)]
  {
    if !WithinClasses(t0, s.merges) {
      var i :| 0 <= i < |s.merges| && !SameClass(t0, s.merges[i].existing, s.merges[i].current);
      assert s'.merges[i] == s.merges[i];
    }
  }
}
