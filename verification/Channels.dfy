/** Channel rows, group relations, and the effective channel number. */
module Channels {
  import opened Options
  import opened NaturalSort

  /** A channel with the number of its override row, if it has one that sets a number. */
  datatype Channel = Channel(
    number: Option<real>,
    pinned: Option<real>,
    hidden: bool,
    autoCreated: bool,
    account: Option<int>,
    group: Option<int>,
    name: string,
    tvgId: string,
    updatedAt: nat)

  type Table = map<nat, Channel>

  /** The number a channel is published under: the override's if set, else its own. */
  function Effective(ch: Channel): Option<real> {
    if ch.pinned.Some? then ch.pinned else ch.number
  }

  datatype SortOrder = ByProvider | ByName | ByTvgId | ByUpdate

  /** A group of an account, with the settings compact numbering reads. */
  datatype Relation = Relation(
    id: int,
    account: int,
    group: int,
    groupOverride: Option<int>,
    compact: bool,
    startField: Option<real>,
    endField: Option<real>,
    order: SortOrder,
    reverse: bool)

  /** int(x): truncation towards zero. */
  function Truncate(x: real): int {
    if x < 0.0 then -((-x).Floor) else x.Floor
  }

  /** A missing or zero start means 1; a missing or zero end means no bound. */
  function Start(rel: Relation): int {
    if rel.startField.None? || rel.startField.value == 0.0 then 1 else Truncate(rel.startField.value)
  }

  function End(rel: Relation): Option<int> {
    if rel.endField.None? || rel.endField.value == 0.0 then None else Some(Truncate(rel.endField.value))
  }

  /** Which whole numbers lie between the bounds, without the truncation: a fraction above zero bounds as
      the next whole number below it, and one below zero as the next above it. */
  lemma BoundsMean(rel: Relation, n: int)
    ensures Start(rel) <= n <==>
      if rel.startField.None? || rel.startField.value == 0.0 then 1 <= n
      else if rel.startField.value > 0.0 then rel.startField.value - 1.0 < n as real
      else rel.startField.value <= n as real
    ensures End(rel).None? <==> rel.endField.None? || rel.endField.value == 0.0
    ensures End(rel).Some? ==>
      (n <= End(rel).value <==>
         if rel.endField.value > 0.0 then n as real <= rel.endField.value else n as real < rel.endField.value + 1.0)
  {
    TruncateBounds(if rel.startField.Some? then rel.startField.value else 0.0, n);
    TruncateBounds(if rel.endField.Some? then rel.endField.value else 0.0, n);
  }

  lemma TruncateBounds(x: real, n: int)
    ensures x >= 0.0 ==> (Truncate(x) <= n <==> x - 1.0 < n as real) && (n <= Truncate(x) <==> n as real <= x)
    ensures x < 0.0 ==> (Truncate(x) <= n <==> x <= n as real) && (n <= Truncate(x) <==> n as real < x + 1.0)
  {
    var f := if x < 0.0 then (-x).Floor else x.Floor;
    if x < 0.0 {
      assert f as real <= -x < f as real + 1.0;
      assert (-f) as real == -(f as real);
    } else {
      assert f as real <= x < f as real + 1.0;
    }
  }

  predicate IsMember(ch: Channel, rel: Relation) {
    && ch.autoCreated && ch.account == Some(rel.account)
    && (ch.group == Some(rel.group) || (ch.group.Some? && ch.group == rel.groupOverride))
  }

  function Members(t: Table, rel: Relation): set<nat> {
    set c | c in t && IsMember(t[c], rel)
  }

  function Visible(t: Table, rel: Relation): set<nat> {
    set c | c in t && IsMember(t[c], rel) && t[c].pinned.None? && !t[c].hidden
  }

  /* Packing order */

  function SortKey(rel: Relation, ch: Channel): seq<Chunk> {
    match rel.order
    case ByProvider => []
    case ByName => NaturalKey(ch.name)
    case ByTvgId => [Text(ch.tvgId)]
    case ByUpdate => [Number(ch.updatedAt)]
  }

  predicate KeyThenId(k: seq<Chunk>, a: nat, l: seq<Chunk>, b: nat) {
    KeyLess(k, l) || (k == l && a < b)
  }

  /** Channel `a` is packed before channel `b`.  The reverse setting has no effect on provider order. */
  predicate Before(t: Table, rel: Relation, a: nat, b: nat)
    requires a in t && b in t
  {
    var k, l := SortKey(rel, t[a]), SortKey(rel, t[b]);
    if rel.reverse && !rel.order.ByProvider? then KeyThenId(l, b, k, a) else KeyThenId(k, a, l, b)
  }

  lemma BeforeIsStrictTotal(t: Table, rel: Relation, a: nat, b: nat, c: nat)
    requires a in t && b in t && c in t
    ensures !Before(t, rel, a, a)
    ensures Before(t, rel, a, b) ==> !Before(t, rel, b, a)
    ensures a != b ==> Before(t, rel, a, b) || Before(t, rel, b, a)
    ensures Before(t, rel, a, b) && Before(t, rel, b, c) ==> Before(t, rel, a, c)
  {
    var k, l, m := SortKey(rel, t[a]), SortKey(rel, t[b]), SortKey(rel, t[c]);
    KeyLessIsStrictTotal(k, l, m);
    KeyLessIsStrictTotal(m, l, k);
    KeyLessIsStrictTotal(k, k, k);
  }

  lemma BeforeByKey(t: Table, rel: Relation, a: nat, b: nat)
    requires a in t && b in t && a != b
    ensures var turned := rel.reverse && !rel.order.ByProvider?;
      && (KeyLess(SortKey(rel, t[a]), SortKey(rel, t[b])) ==> (Before(t, rel, a, b) <==> !turned))
      && (SortKey(rel, t[a]) == SortKey(rel, t[b]) ==> (Before(t, rel, a, b) <==> (a < b) != turned))
  {
    var k, l := SortKey(rel, t[a]), SortKey(rel, t[b]);
    KeyLessIsStrictTotal(k, l, k);
  }

  /** Keys of one chunk are compared by that chunk. */
  lemma OneChunkKeys(s: string, u: string, m: nat, n: nat)
    ensures KeyLess([Text(s)], [Text(u)]) <==> LexLess(CharLess, s, u)
    ensures KeyLess([Number(m)], [Number(n)]) <==> m < n
  {
    LexConnected(CharLess, s, u);
    OneChunkEach(Text(s), Text(u));
    OneChunkEach(Number(m), Number(n));
  }

  lemma OneChunkEach(x: Chunk, y: Chunk)
    ensures KeyLess([x], [y]) <==> x != y && ChunkLess(x, y)
  {
    var k, l := [x], [y];
    assert k[1..] == [] && l[1..] == [];
    assert !LexLess(ChunkLess, k[1..], l[1..]);
    assert LexLess(ChunkLess, k, l) == if k[0] == l[0] then LexLess(ChunkLess, k[1..], l[1..]) else ChunkLess(k[0], l[0]);
  }

  ghost predicate Sorted(t: Table, rel: Relation, order: seq<nat>) {
    && (forall i :: 0 <= i < |order| ==> order[i] in t)
    && forall i, j :: 0 <= i < j < |order| ==> Before(t, rel, order[i], order[j])
  }

  ghost predicate IsOrderOf(t: Table, rel: Relation, order: seq<nat>, ids: set<nat>) {
    Sorted(t, rel, order) && forall c :: c in order <==> c in ids
  }

  function Reversed(order: seq<nat>): seq<nat> {
    seq(|order|, i requires 0 <= i < |order| => order[|order| - 1 - i])
  }

  /** The reverse setting turns every order around, ties by id included, but for the provider order, which
      it leaves as it is. */
  lemma ReverseTurnsAround(t: Table, rel: Relation, order: seq<nat>, ids: set<nat>)
    requires IsOrderOf(t, rel, order, ids)
    ensures IsOrderOf(t, rel.(reverse := !rel.reverse), if rel.order.ByProvider? then order else Reversed(order), ids)
  {
    var turned, order' := rel.(reverse := !rel.reverse), Reversed(order);
    if rel.order.ByProvider? {
      forall i, j | 0 <= i < j < |order| ensures Before(t, turned, order[i], order[j]) {
        BeforeTurned(t, rel, order[i], order[j]);
      }
    } else {
      ReversedHasSame(order);
      forall i, j | 0 <= i < j < |order| ensures Before(t, turned, order'[i], order'[j]) {
        BeforeTurned(t, rel, order'[i], order'[j]);
      }
    }
  }

  lemma BeforeTurned(t: Table, rel: Relation, a: nat, b: nat)
    requires a in t && b in t
    ensures Before(t, rel.(reverse := !rel.reverse), a, b) == if rel.order.ByProvider? then Before(t, rel, a, b) else Before(t, rel, b, a)
  {
    assert SortKey(rel.(reverse := !rel.reverse), t[a]) == SortKey(rel, t[a]);
    assert SortKey(rel.(reverse := !rel.reverse), t[b]) == SortKey(rel, t[b]);
  }

  lemma ReversedHasSame(order: seq<nat>)
    ensures forall c :: c in Reversed(order) <==> c in order
  {
    forall c | c in order ensures c in Reversed(order) {
      var i :| 0 <= i < |order| && order[i] == c;
      assert Reversed(order)[|order| - 1 - i] == c;
    }
  }

  /** The channel of the set that is packed first. */
  ghost function First(t: Table, rel: Relation, ids: set<nat>): (m: nat)
    requires ids != {} && ids <= t.Keys
    ensures m in ids && forall c :: c in ids && c != m ==> Before(t, rel, m, c)
  {
    var x :| x in ids;
    var rest := ids - {x};
    if rest == {} then
      assert ids == {x};
      x
    else
      var m := First(t, rel, rest);
      FirstOfBoth(t, rel, ids, x, m);
      if Before(t, rel, x, m) then x else m
  }

  lemma FirstIsUnique(t: Table, rel: Relation, ids: set<nat>, m: nat)
    requires ids <= t.Keys && m in ids && forall c :: c in ids && c != m ==> Before(t, rel, m, c)
    ensures First(t, rel, ids) == m
  {
    BeforeIsStrictTotal(t, rel, m, First(t, rel, ids), m);
  }

  lemma FirstOfBoth(t: Table, rel: Relation, ids: set<nat>, x: nat, m: nat)
    requires ids <= t.Keys && x in ids && m in ids && x != m
    requires forall c :: c in ids - {x} && c != m ==> Before(t, rel, m, c)
    ensures var f := if Before(t, rel, x, m) then x else m; forall c :: c in ids && c != f ==> Before(t, rel, f, c)
  {
    forall c | c in ids && c != x
      ensures Before(t, rel, x, m) ==> Before(t, rel, x, c)
    {
      BeforeIsStrictTotal(t, rel, x, m, c);
    }
    BeforeIsStrictTotal(t, rel, x, m, x);
  }

  /** The channels of the set in packing order. */
  ghost function InOrder(t: Table, rel: Relation, ids: set<nat>): (order: seq<nat>)
    requires ids <= t.Keys
    ensures IsOrderOf(t, rel, order, ids) && |order| == |ids|
    decreases |ids|
  {
    if ids == {} then []
    else
      var m := First(t, rel, ids);
      var rest := InOrder(t, rel, ids - {m});
      FirstThenRest(t, rel, m, rest, ids);
      [m] + rest
  }

  lemma FirstThenRest(t: Table, rel: Relation, m: nat, rest: seq<nat>, ids: set<nat>)
    requires m in ids && m in t && IsOrderOf(t, rel, rest, ids - {m})
    requires forall c :: c in ids && c != m ==> c in t && Before(t, rel, m, c)
    ensures IsOrderOf(t, rel, [m] + rest, ids)
  {
    forall i | 0 <= i < |rest|
      ensures Before(t, rel, m, rest[i])
    {
      assert rest[i] in rest;
    }
  }

  lemma {:induction false} OrderIsUnique(t: Table, rel: Relation, a: seq<nat>, b: seq<nat>, ids: set<nat>)
    requires IsOrderOf(t, rel, a, ids) && IsOrderOf(t, rel, b, ids)
    ensures a == b
    decreases |a|
  {
    assert a != [] ==> a[0] in b;
    assert b != [] ==> b[0] in a;
    if a != [] {
      SameHead(t, rel, a, b);
      TailIsOrder(t, rel, a, ids);
      TailIsOrder(t, rel, b, ids);
      OrderIsUnique(t, rel, a[1..], b[1..], ids - {a[0]});
      assert a == [a[0]] + a[1..] && b == [b[0]] + b[1..];
    }
  }

  lemma SameHead(t: Table, rel: Relation, a: seq<nat>, b: seq<nat>)
    requires a != [] && b != [] && Sorted(t, rel, a) && Sorted(t, rel, b) && forall c :: c in a <==> c in b
    ensures a[0] == b[0]
  {
    assert a[0] in b && b[0] in a;
    var i :| 0 <= i < |b| && b[i] == a[0];
    var j :| 0 <= j < |a| && a[j] == b[0];
    BeforeIsStrictTotal(t, rel, a[0], b[0], a[0]);
  }

  lemma TailIsOrder(t: Table, rel: Relation, a: seq<nat>, ids: set<nat>)
    requires a != [] && IsOrderOf(t, rel, a, ids)
    ensures IsOrderOf(t, rel, a[1..], ids - {a[0]})
  {
    forall c
      ensures c in a[1..] <==> c in ids - {a[0]}
    {
      assert a == [a[0]] + a[1..];
      if c in a[1..] {
        var i :| 0 <= i < |a[1..]| && a[1..][i] == c;
        assert a[i + 1] == c;
        BeforeIsStrictTotal(t, rel, a[0], c, c);
      }
    }
  }
}
