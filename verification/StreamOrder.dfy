/** Replacing the ordered streams of one channel by the difference to the links it has. */
module StreamOrder {
  import opened Options

  datatype Row = Row(id: nat, order: nat)

  /** The link rows of the channel, by stream. */
  type Links = map<nat, Row>

  /** Where a stream stands last in the request. */
  function LastIndex(ids: seq<nat>, s: nat): (i: nat)
    requires s in ids
    ensures i < |ids| && ids[i] == s && forall j :: i < j < |ids| ==> ids[j] != s
  {
    var last := |ids| - 1;
    if ids[last] == s then last
    else
      assert ids == ids[..last] + [ids[last]];
      LastIndex(ids[..last], s)
  }

  function Positions(ids: seq<nat>): map<nat, nat> {
    map s | s in ids :: LastIndex(ids, s)
  }

  predicate Twice(ids: seq<nat>, s: nat) {
    exists i, j :: 0 <= i < j < |ids| && ids[i] == s && ids[j] == s
  }

  ghost predicate NoneTwice(ids: seq<nat>) {
    forall s :: s in ids ==> !Twice(ids, s)
  }

  /** A stream that is not linked yet and is listed twice would be linked twice. */
  predicate LinksTwice(links: Links, ids: seq<nat>) {
    exists s :: s in ids && s !in links && Twice(ids, s)
  }

  /** The links hold just the listed streams, each at its last position; rows that stay are the same rows. */
  ghost predicate Arranged(before: Links, next: nat, ids: seq<nat>, after: Links) {
    && (forall s :: s in after <==> s in ids)
    && (forall s :: s in after ==> after[s].order == Positions(ids)[s])
    && (forall s :: s in after ==> if s in before then after[s].id == before[s].id else after[s].id >= next)
  }

  function Repeated(ids: seq<nat>): set<nat> {
    set s | s in ids && Twice(ids, s)
  }

  /** The loop after `i` streams: orders are set up to the last position seen so far. */
  ghost predicate Progress(links: Links, kept: Links, created: Links, next: nat, row: nat, ids: seq<nat>, i: nat)
    requires i <= |ids|
  {
    && (forall s :: s in kept <==> s in links && s in ids)
    && Placed(links, kept, created, next, row, Positions(ids[..i]), Repeated(ids[..i]))
  }

  ghost predicate Placed(links: Links, kept: Links, created: Links, next: nat, row: nat, at: map<nat, nat>, again: set<nat>) {
    && (forall s :: s in kept ==> s in links && kept[s] == Row(links[s].id, if s in at then at[s] else links[s].order))
    && (forall s :: s in created <==> s in at && s !in links)
    && (forall s :: s in created ==> created[s].order == at[s] && next <= created[s].id < row && s !in again)
    && next <= row
  }

  /** Some listed link had another order than its position, or is listed again. */
  ghost predicate Moved(links: Links, ids: seq<nat>, i: nat) {
    exists j :: 0 <= j < i && j < |ids| && ids[j] in links && (links[ids[j]].order != j || Twice(ids, ids[j]))
  }

  lemma PositionsGrow(ids: seq<nat>, i: nat)
    requires i < |ids|
    ensures Positions(ids[..i + 1]) == Positions(ids[..i])[ids[i] := i]
  {
    var longer, shorter := ids[..i + 1], ids[..i];
    assert longer == shorter + [ids[i]];
    forall s | s in longer ensures Positions(longer)[s] == Positions(shorter)[ids[i] := i][s] {
      assert longer[..|longer| - 1] == shorter;
    }
  }

  lemma RepeatedGrow(ids: seq<nat>, i: nat)
    requires i < |ids|
    ensures Repeated(ids[..i + 1]) == Repeated(ids[..i]) + if ids[i] in ids[..i] then {ids[i]} else {}
  {
    assert ids[..i + 1] == ids[..i] + [ids[i]];
    forall s ensures s in Repeated(ids[..i + 1]) <==> s in Repeated(ids[..i]) || (s == ids[i] && s in ids[..i]) {
      TwiceGrows(ids, i, s);
      if Twice(ids[..i], s) {
        TwiceOfPrefix(ids[..i], i, s);
      }
    }
  }

  lemma TwiceGrows(ids: seq<nat>, i: nat, s: nat)
    requires i < |ids|
    ensures Twice(ids[..i + 1], s) <==> Twice(ids[..i], s) || (s == ids[i] && s in ids[..i])
  {
    var longer, shorter := ids[..i + 1], ids[..i];
    if Twice(longer, s) {
      var j: nat, k: nat :| j < k < |longer| && longer[j] == s && longer[k] == s;
      assert shorter[j] == s;
      assert k < i ==> shorter[k] == s;
    }
    if Twice(shorter, s) {
      var j: nat, k: nat :| j < k < |shorter| && shorter[j] == s && shorter[k] == s;
      assert longer[j] == s && longer[k] == s;
    }
    if s == ids[i] && s in shorter {
      var j: nat :| j < |shorter| && shorter[j] == s;
      assert longer[j] == s && longer[i] == s;
    }
  }

  lemma TwiceOfPrefix(ids: seq<nat>, i: nat, s: nat)
    requires i <= |ids| && Twice(ids[..i], s)
    ensures Twice(ids, s) && s in ids
  {
    var j: nat, k: nat :| j < k < i && ids[..i][j] == s && ids[..i][k] == s;
    assert ids[j] == s && ids[k] == s;
  }

  lemma OncePosition(ids: seq<nat>, s: nat, j: nat)
    requires j < |ids| && ids[j] == s && !Twice(ids, s)
    ensures LastIndex(ids, s) == j
  {
    var last := LastIndex(ids, s);
    assert ids[last] == s && ids[j] == s;
  }

  lemma Turn(links: Links, kept: Links, created: Links, next: nat, row: nat, ids: seq<nat>, i: nat)
    requires i < |ids| && Progress(links, kept, created, next, row, ids, i)
    ensures var s := ids[i];
      s in kept ==> Progress(links, kept[s := Row(kept[s].id, i)], created, next, row, ids, i + 1)
    ensures var s := ids[i];
      s !in kept && s !in created ==> Progress(links, kept, created[s := Row(row, i)], next, row + 1, ids, i + 1)
    ensures ids[i] !in kept && ids[i] in created ==> LinksTwice(links, ids)
  {
    PositionsGrow(ids, i);
    RepeatedGrow(ids, i);
    var s := ids[i];
    var at, again := Positions(ids[..i]), Repeated(ids[..i]);
    if s in kept {
      PlacedKept(links, kept, created, next, row, at, again, s, i);
    } else if s in created {
      TwiceGrows(ids, i, s);
      TwiceOfPrefix(ids, i + 1, s);
    } else {
      PlacedNew(links, kept, created, next, row, at, again, s, i);
    }
  }

  lemma PlacedKept(links: Links, kept: Links, created: Links, next: nat, row: nat, at: map<nat, nat>, again: set<nat>, s: nat, i: nat)
    requires Placed(links, kept, created, next, row, at, again) && s in kept
    ensures Placed(links, kept[s := Row(kept[s].id, i)], created, next, row, at[s := i], again)
    ensures Placed(links, kept[s := Row(kept[s].id, i)], created, next, row, at[s := i], again + {s})
  {
  }

  lemma PlacedNew(links: Links, kept: Links, created: Links, next: nat, row: nat, at: map<nat, nat>, again: set<nat>, s: nat, i: nat)
    requires Placed(links, kept, created, next, row, at, again) && s !in links && s !in created && s !in again
    ensures Placed(links, kept, created[s := Row(row, i)], next, row + 1, at[s := i], again)
  {
  }

  lemma Finished(links: Links, kept: Links, created: Links, next: nat, row: nat, ids: seq<nat>)
    requires Progress(links, kept, created, next, row, ids, |ids|)
    ensures Arranged(links, next, ids, kept + created) && !LinksTwice(links, ids)
  {
    assert ids[..|ids|] == ids;
  }

  ghost predicate Counted(links: Links, kept: Links, ids: seq<nat>, i: nat, updates: nat) {
    && (updates == 0 ==> forall s :: s in kept ==> s in links && kept[s] == links[s])
    && (updates > 0 ==> Moved(links, ids, i))
  }

  lemma TurnCounted(links: Links, kept: Links, created: Links, next: nat, row: nat, ids: seq<nat>, i: nat, updates: nat)
    requires i < |ids| && Progress(links, kept, created, next, row, ids, i) && Counted(links, kept, ids, i, updates)
    ensures Counted(links, kept, ids, i + 1, updates)
    ensures var s := ids[i];
      s in kept && kept[s].order != i ==> Counted(links, kept[s := kept[s].(order := i)], ids, i + 1, updates + 1)
  {
    var s := ids[i];
    if s in kept && kept[s].order != i {
      if s in ids[..i] {
        TwiceGrows(ids, i, s);
        TwiceOfPrefix(ids, i + 1, s);
      }
      assert links[s].order != i || Twice(ids, s);
    }
  }

  datatype Work = Work(kept: Links, created: Links, row: nat, updates: nat)

  ghost predicate Ahead(links: Links, next: nat, ids: seq<nat>, i: nat, w: Work)
    requires i <= |ids|
  {
    Progress(links, w.kept, w.created, next, w.row, ids, i) && Counted(links, w.kept, ids, i, w.updates)
  }

  lemma Advance(links: Links, next: nat, ids: seq<nat>, i: nat, w: Work)
    requires i < |ids| && Ahead(links, next, ids, i, w)
    ensures var s := ids[i];
      && (s in w.kept && w.kept[s].order != i ==>
            Ahead(links, next, ids, i + 1, w.(kept := w.kept[s := w.kept[s].(order := i)], updates := w.updates + 1)))
      && (s in w.kept && w.kept[s].order == i ==> Ahead(links, next, ids, i + 1, w))
      && (s !in w.kept && s in w.created ==> LinksTwice(links, ids))
      && (s !in w.kept && s !in w.created ==>
            Ahead(links, next, ids, i + 1, w.(created := w.created[s := Row(w.row, i)], row := w.row + 1)))
  {
    Turn(links, w.kept, w.created, next, w.row, ids, i);
    TurnCounted(links, w.kept, w.created, next, w.row, ids, i, w.updates);
    var s := ids[i];
    if s in w.kept {
      assert w.kept[s].(order := i) == Row(w.kept[s].id, i);
      if w.kept[s].order == i {
        assert w.kept[s := Row(w.kept[s].id, i)] == w.kept;
      }
    }
  }

  /** Nothing written, nothing changed. */
  lemma Unwritten(links: Links, kept: Links, created: Links, next: nat, row: nat, ids: seq<nat>, removed: set<nat>)
    requires Progress(links, kept, created, next, row, ids, |ids|) && Counted(links, kept, ids, |ids|, 0)
    requires removed == (set s | s in links && s !in ids) && removed == {} && created == map[]
    ensures kept + created == links
  {
    forall s | s in links ensures s in kept && kept[s] == links[s] {
      assert s !in removed;
    }
    assert kept.Keys == links.Keys;
    assert kept + created == kept;
  }

  /** Nothing changed, nothing written, unless a linked stream is listed twice. */
  lemma Unchanged(links: Links, kept: Links, created: Links, next: nat, row: nat, ids: seq<nat>, updates: nat, removed: set<nat>)
    requires Progress(links, kept, created, next, row, ids, |ids|) && Counted(links, kept, ids, |ids|, updates)
    requires removed == set s | s in links && s !in ids
    requires kept + created == links && NoneTwice(ids)
    ensures removed == {} && created == map[] && updates == 0
  {
    Finished(links, kept, created, next, row, ids);
    assert forall s :: s in created ==> s in kept + created && s !in links;
    assert created.Keys == {};
    assert forall s :: s in links ==> s in ids;
    MovedShows(links, ids, next, kept + created, updates);
  }

  lemma MovedShows(links: Links, ids: seq<nat>, next: nat, after: Links, updates: nat)
    requires Arranged(links, next, ids, after) && after == links && (updates > 0 ==> Moved(links, ids, |ids|))
    requires NoneTwice(ids)
    ensures updates == 0
  {
    if updates > 0 {
      var j: nat :| j < |ids| && ids[j] in links && (links[ids[j]].order != j || Twice(ids, ids[j]));
      OncePosition(ids, ids[j], j);
    }
  }

  /** Nothing is written exactly when nothing changes, unless a linked stream is listed twice. */
  ghost predicate WritesShow(before: Links, ids: seq<nat>, after: Links, writes: nat) {
    (writes == 0 ==> after == before) && (after == before && NoneTwice(ids) ==> writes == 0)
  }

  lemma Written(links: Links, kept: Links, created: Links, next: nat, row: nat, ids: seq<nat>, updates: nat, removed: set<nat>)
    requires Progress(links, kept, created, next, row, ids, |ids|) && Counted(links, kept, ids, |ids|, updates)
    requires removed == set s | s in links && s !in ids
    ensures Arranged(links, next, ids, kept + created) && !LinksTwice(links, ids)
    ensures WritesShow(links, ids, kept + created, |removed| + updates + |created|)
  {
    Finished(links, kept, created, next, row, ids);
    if |removed| + updates + |created| == 0 {
      assert removed == {} && created == map[];
      Unwritten(links, kept, created, next, row, ids, removed);
    }
    if kept + created == links && NoneTwice(ids) {
      Unchanged(links, kept, created, next, row, ids, updates, removed);
    }
  }

  class Channel {
    var links: Links
    var nextRow: nat

    constructor (links: Links, nextRow: nat)
      ensures this.links == links && this.nextRow == nextRow
    {
      this.links, this.nextRow := links, nextRow;
    }

    /** The number of rows written, or None where the uniqueness of channel and stream refuses a row and
        the transaction is undone. */
    method SetStreams(ids: seq<nat>) returns (writes: Option<nat>)
      modifies this
      ensures writes.None? <==> LinksTwice(old(links), ids)
      ensures writes.None? ==> links == old(links) && nextRow == old(nextRow)
      ensures writes.Some? ==> Arranged(old(links), old(nextRow), ids, links)
      ensures writes.Some? ==> WritesShow(old(links), ids, links, writes.value)
    {
      var committed, after, row, count := Difference(links, nextRow, ids);
      if !committed {
        return None;
      }
      links, nextRow := after, row;
      writes := Some(count);
    }
  }

  /** The links after the request, and how many rows it takes to get there. */
  method Difference(links: Links, next: nat, ids: seq<nat>) returns (committed: bool, after: Links, row: nat, writes: nat)
    ensures committed <==> !LinksTwice(links, ids)
    ensures committed ==> Arranged(links, next, ids, after) && WritesShow(links, ids, after, writes)
  {
    var removed := set s | s in links && s !in ids;
    var placed, w := PlaceStreams(links, next, ids);
    if !placed {
      return false, links, next, 0;
    }
    Written(links, w.kept, w.created, next, w.row, ids, w.updates, removed);
    return true, w.kept + w.created, w.row, |removed| + w.updates + |w.created|;
  }

  /** The loop over the request: rows that stay, rows created, and how many of the former were updated. */
  method PlaceStreams(links: Links, next: nat, ids: seq<nat>) returns (placed: bool, w: Work)
    ensures !placed ==> LinksTwice(links, ids)
    ensures placed ==> Ahead(links, next, ids, |ids|, w)
  {
    placed := true;
    w := Work(map s | s in links && s in ids :: links[s], map[], next, 0);
    for i := 0 to |ids|
      invariant placed && Ahead(links, next, ids, i, w)
    {
      var s := ids[i];
      Advance(links, next, ids, i, w);
      if s in w.kept {
        if w.kept[s].order != i {
          w := w.(kept := w.kept[s := w.kept[s].(order := i)], updates := w.updates + 1);
        }
      } else if s in w.created {
        placed := false;
        return;
      } else {
        w := w.(created := w.created[s := Row(w.row, i)], row := w.row + 1);
      }
    }
  }

  /* Reading the links back */

  /** Strictly ascending by rank. */
  ghost predicate Climbs(rank: map<nat, nat>, r: seq<nat>) {
    && (forall s :: s in r ==> s in rank)
    && (forall i, j :: 0 <= i < j < |r| ==> rank[r[i]] < rank[r[j]])
  }

  function Orders(links: Links): map<nat, nat> {
    map s | s in links :: links[s].order
  }

  /** The streams in the order of their links. */
  ghost predicate Listed(links: Links, listed: seq<nat>) {
    (forall s :: s in listed <==> s in links) && Climbs(Orders(links), listed)
  }

  /** The request with every stream kept at its last position only. */
  function LastOnly(ids: seq<nat>): (r: seq<nat>)
    ensures forall s :: s in r <==> s in ids
  {
    if ids == [] then []
    else if ids[0] in ids[1..] then LastOnly(ids[1..])
    else [ids[0]] + LastOnly(ids[1..])
  }

  lemma PositionsOfTail(ids: seq<nat>, s: nat)
    requires ids != [] && s in ids[1..]
    ensures s in ids && Positions(ids)[s] == Positions(ids[1..])[s] + 1
  {
    var k := LastIndex(ids[1..], s);
    assert ids[k + 1] == s;
    assert forall j :: k + 1 < j < |ids| ==> ids[j] == ids[1..][j - 1];
  }

  lemma FirstIsLast(ids: seq<nat>)
    requires ids != [] && ids[0] !in ids[1..]
    ensures Positions(ids)[ids[0]] == 0
  {
    assert forall j :: 0 < j < |ids| ==> ids[j] == ids[1..][j - 1];
  }

  lemma {:induction false} LastOnlyClimbs(ids: seq<nat>)
    ensures Climbs(Positions(ids), LastOnly(ids))
    decreases |ids|
  {
    if ids != [] {
      var rest := LastOnly(ids[1..]);
      LastOnlyClimbs(ids[1..]);
      forall s | s in rest ensures s in ids && Positions(ids)[s] == Positions(ids[1..])[s] + 1 {
        PositionsOfTail(ids, s);
      }
      ShiftedClimbs(Positions(ids[1..]), Positions(ids), rest);
      if ids[0] !in ids[1..] {
        FirstIsLast(ids);
        PrependedClimbs(Positions(ids), ids[0], rest);
      }
    }
  }

  lemma ShiftedClimbs(rank: map<nat, nat>, shifted: map<nat, nat>, r: seq<nat>)
    requires Climbs(rank, r) && forall s :: s in r ==> s in shifted && s in rank && shifted[s] == rank[s] + 1
    ensures Climbs(shifted, r)
  {
  }

  lemma PrependedClimbs(rank: map<nat, nat>, first: nat, rest: seq<nat>)
    requires Climbs(rank, rest) && first in rank && forall s :: s in rest ==> rank[first] < rank[s]
    ensures Climbs(rank, [first] + rest)
  {
    var r := [first] + rest;
    forall s | s in r ensures s in rank {
      assert s == first || s in rest;
    }
    forall i: nat, j: nat | i < j < |r| ensures rank[r[i]] < rank[r[j]] {
      assert r[j] == rest[j - 1] && rest[j - 1] in rest;
      assert i > 0 ==> r[i] == rest[i - 1];
    }
  }

  lemma {:induction false} SameElementsSameList(rank: map<nat, nat>, p: seq<nat>, q: seq<nat>)
    requires Climbs(rank, p) && Climbs(rank, q) && forall s :: s in p <==> s in q
    ensures p == q
    decreases |p|
  {
    assert q != [] ==> q[0] in q;
    if p != [] {
      assert p[0] in p;
      SameFirst(rank, p, q);
      forall s ensures s in p[1..] <==> s in q[1..] {
        TailIsOthers(rank, p, s);
        TailIsOthers(rank, q, s);
      }
      SameElementsSameList(rank, p[1..], q[1..]);
    }
  }

  lemma FirstIsLeast(rank: map<nat, nat>, p: seq<nat>, s: nat)
    requires Climbs(rank, p) && p != [] && s in p
    ensures p[0] in rank && s in rank && (s == p[0] || rank[p[0]] < rank[s])
  {
    assert p[0] in p;
  }

  lemma SameFirst(rank: map<nat, nat>, p: seq<nat>, q: seq<nat>)
    requires Climbs(rank, p) && Climbs(rank, q) && p != [] && q != [] && p[0] in q && q[0] in p
    ensures p[0] == q[0]
  {
    FirstIsLeast(rank, p, q[0]);
    FirstIsLeast(rank, q, p[0]);
  }

  lemma TailIsOthers(rank: map<nat, nat>, p: seq<nat>, s: nat)
    requires Climbs(rank, p) && p != []
    ensures s in p[1..] <==> s in p && s != p[0]
  {
    assert p == [p[0]] + p[1..];
    if s in p[1..] {
      var k: nat :| k < |p[1..]| && p[1..][k] == s;
      assert p[k + 1] == s;
    }
  }

  /** Read in the order of the links, the channel's streams are the requested list, each at its last place. */
  lemma ReadsBackAsRequested(before: Links, next: nat, ids: seq<nat>, after: Links, listed: seq<nat>)
    requires Arranged(before, next, ids, after) && Listed(after, listed)
    ensures listed == LastOnly(ids)
    ensures NoneTwice(ids) ==> listed == ids
  {
    assert Orders(after) == Positions(ids);
    LastOnlyClimbs(ids);
    SameElementsSameList(Positions(ids), listed, LastOnly(ids));
    if NoneTwice(ids) {
      OnceIsWhole(ids);
    }
  }

  lemma TwiceOfTail(ids: seq<nat>, s: nat)
    requires ids != [] && Twice(ids[1..], s)
    ensures Twice(ids, s) && s in ids
  {
    var i: nat, j: nat :| i < j < |ids[1..]| && ids[1..][i] == s && ids[1..][j] == s;
    assert ids[i + 1] == s && ids[j + 1] == s;
  }

  lemma FirstComesAgain(ids: seq<nat>)
    requires ids != [] && ids[0] in ids[1..]
    ensures Twice(ids, ids[0])
  {
    var j: nat :| j < |ids[1..]| && ids[1..][j] == ids[0];
    assert ids[0] == ids[0] && ids[j + 1] == ids[0];
  }

  lemma {:induction false} OnceIsWhole(ids: seq<nat>)
    requires NoneTwice(ids)
    ensures LastOnly(ids) == ids
    decreases |ids|
  {
    if ids != [] {
      assert ids[0] in ids;
      forall s | s in ids[1..] ensures !Twice(ids[1..], s) {
        if Twice(ids[1..], s) {
          TwiceOfTail(ids, s);
        }
      }
      if ids[0] in ids[1..] {
        FirstComesAgain(ids);
      }
      OnceIsWhole(ids[1..]);
    }
  }
}
