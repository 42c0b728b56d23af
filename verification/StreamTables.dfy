/** The two tables a stream rehash works on, and the ranking that decides which duplicate survives. */
module StreamTables {
  import opened Options

  type Hash = string

  /** A stream row.  `key` is the value generate_hash_key returns for the row under the keys of the
      run; it depends on columns the rehash never writes.  `stored` is the nullable, unique stream_hash. */
  datatype Stream = Stream(key: Hash, updatedAt: int, stored: Option<Hash>)

  /** A channel-stream row: the stream is played by the channel at the given position. */
  datatype Link = Link(channel: int, stream: int, order: nat)

  type Streams = map<int, Stream>
  type Links = map<int, Link>

  /* Database constraints */

  ghost predicate UniqueHashes(s: Streams) {
    forall i, j :: i in s && j in s && s[i].stored.Some? && s[i].stored == s[j].stored ==> i == j
  }

  ghost predicate UniquePairs(ls: Links) {
    forall k, l :: k in ls && l in ls && ls[k].channel == ls[l].channel && ls[k].stream == ls[l].stream ==> k == l
  }

  ghost predicate References(s: Streams, ls: Links) {
    forall l :: l in ls ==> ls[l].stream in s
  }

  ghost predicate Sound(s: Streams, ls: Links) {
    UniqueHashes(s) && UniquePairs(ls) && References(s, ls)
  }

  /* Positions */

  ghost predicate LinkedBy(ls: Links, c: int, s: int, l: int) {
    l in ls && ls[l].channel == c && ls[l].stream == s
  }

  /** The position at which channel `c` plays stream `s`, if it does. */
  ghost function OrderAt(ls: Links, c: int, s: int): Option<nat> {
    if exists l :: LinkedBy(ls, c, s, l) then
      var l :| LinkedBy(ls, c, s, l);
      Some(ls[l].order)
    else
      None
  }

  lemma OrderAtLink(ls: Links, l: int)
    requires UniquePairs(ls) && l in ls
    ensures OrderAt(ls, ls[l].channel, ls[l].stream) == Some(ls[l].order)
  {
    assert LinkedBy(ls, ls[l].channel, ls[l].stream, l);
  }

  lemma NoLinkNoOrder(ls: Links, c: int, s: int)
    ensures OrderAt(ls, c, s).None? <==> forall l :: !LinkedBy(ls, c, s, l)
  {
  }

  lemma OrderAtAfterRemoval(ls: Links, l: int, c: int, s: int)
    requires UniquePairs(ls) && l in ls
    ensures UniquePairs(ls - {l})
    ensures OrderAt(ls - {l}, c, s) == if c == ls[l].channel && s == ls[l].stream then None else OrderAt(ls, c, s)
  {
    var rest := ls - {l};
    if c == ls[l].channel && s == ls[l].stream {
      NoLinkNoOrder(rest, c, s);
    } else if m :| LinkedBy(ls, c, s, m) {
      OrderAtLink(ls, m);
      assert LinkedBy(rest, c, s, m);
      OrderAtLink(rest, m);
    } else {
      assert forall m :: LinkedBy(rest, c, s, m) ==> LinkedBy(ls, c, s, m);
    }
  }

  lemma OrderAtAfterWrite(ls: Links, l: int, row: Link, c: int, s: int)
    requires UniquePairs(ls) && l in ls && row.channel == ls[l].channel
    requires row.stream == ls[l].stream || OrderAt(ls, row.channel, row.stream).None?
    ensures UniquePairs(ls[l := row])
    ensures OrderAt(ls[l := row], c, s) ==
      if c == row.channel && s == row.stream then Some(row.order)
      else if c == row.channel && s == ls[l].stream then None
      else OrderAt(ls, c, s)
  {
    var rest := ls - {l};
    var after := ls[l := row];
    OrderAtAfterRemoval(ls, l, c, s);
    assert forall m :: LinkedBy(ls, row.channel, row.stream, m) ==> m == l by {
      NoLinkNoOrder(ls, row.channel, row.stream);
      assert LinkedBy(ls, row.channel, ls[l].stream, l);
    }
    assert UniquePairs(after) by {
      forall m | m in after && m != l
        ensures !(after[m].channel == row.channel && after[m].stream == row.stream)
      {
        assert LinkedBy(ls, after[m].channel, after[m].stream, m);
      }
    }
    OrderAtAfterRemoval(after, l, c, s);
    assert after - {l} == rest;
    OrderAtLink(after, l);
  }

  ghost function Least(xs: set<nat>): (m: Option<nat>)
    ensures m.None? <==> xs == {}
    ensures m.Some? ==> m.value in xs && forall x :: x in xs ==> m.value <= x
  {
    if xs == {} then None
    else
      var x :| x in xs;
      var rest := xs - {x};
      assert xs == rest + {x};
      match Least(rest)
      case None => Some(x)
      case Some(y) => if x < y then Some(x) else Some(y)
  }

  /** The lowest position any channel gives the stream; None when no channel plays it. */
  ghost function BestOrder(ls: Links, s: int): Option<nat> {
    Least(set l | l in ls && ls[l].stream == s :: ls[l].order)
  }

  ghost predicate IsBest(best: Option<nat>, ls: Links, s: int) {
    && (best.None? ==> forall c :: OrderAt(ls, c, s).None?)
    && (best.Some? ==> exists c :: OrderAt(ls, c, s) == best)
    && forall c :: OrderAt(ls, c, s).Some? ==> best.Some? && best.value <= OrderAt(ls, c, s).value
  }

  lemma BestOrderIsBest(ls: Links, s: int)
    requires UniquePairs(ls)
    ensures IsBest(BestOrder(ls, s), ls, s)
  {
    var orders := set l | l in ls && ls[l].stream == s :: ls[l].order;
    forall c | OrderAt(ls, c, s).Some?
      ensures OrderAt(ls, c, s).value in orders
    {
      var l :| LinkedBy(ls, c, s, l);
      OrderAtLink(ls, l);
    }
    if BestOrder(ls, s).Some? {
      var l :| l in ls && ls[l].stream == s && ls[l].order == BestOrder(ls, s).value;
      OrderAtLink(ls, l);
    }
  }

  /** The better of two positions, where no position at all is worst. */
  function MinOrder(a: Option<nat>, b: Option<nat>): Option<nat> {
    match (a, b)
    case (None, _) => b
    case (_, None) => a
    case (Some(x), Some(y)) => if x < y then a else b
  }

  /* Ranking */

  datatype Rank = Rank(order: Option<nat>, updatedAt: int, id: int)

  /** Lexicographic: a lower position first (no position last), then the later update, then the lower id. */
  predicate Beats(a: Rank, b: Rank) {
    if a.order != b.order then
      a.order.Some? && (b.order.Some? ==> a.order.value < b.order.value)
    else if a.updatedAt != b.updatedAt then
      a.updatedAt > b.updatedAt
    else
      a.id < b.id
  }

  /** The decision between two duplicates, branch by branch: true keeps `a`, false keeps `b`. */
  function KeepsFirst(a: Rank, b: Rank): (keep: bool)
    ensures keep <==> Beats(a, b)
  {
    if a.order.Some? && b.order.None? then true
    else if b.order.Some? && a.order.None? then false
    else if a.order.Some? && b.order.Some? && a.order.value < b.order.value then true
    else if a.order.Some? && b.order.Some? && b.order.value < a.order.value then false
    else if a.updatedAt > b.updatedAt then true
    else if b.updatedAt > a.updatedAt then false
    else a.id < b.id
  }

  lemma BeatsIsStrictTotalOrder(a: Rank, b: Rank, c: Rank)
    ensures !Beats(a, a)
    ensures Beats(a, b) && Beats(b, c) ==> Beats(a, c)
    ensures a != b && a.id != b.id ==> Beats(a, b) || Beats(b, a)
    ensures Beats(a, b) ==> !Beats(b, a)
  {
  }

  /** The rank of a stream that may no longer be in the table, from the row `row` read earlier. */
  ghost function RankOf(row: Stream, ls: Links, id: int): Rank {
    Rank(BestOrder(ls, id), row.updatedAt, id)
  }
}
