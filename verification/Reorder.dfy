/** Moving one channel behind another by shifting the numbers in between. */
module Reorder {
  import opened Options
  import Channels

  /** channel_number of every channel: a float, or null. */
  type Numbers = map<nat, Option<real>>

  datatype Outcome = NoSuchChannel | TargetNotFound | AlreadyThere | MovedTo(number: real) | ComparedWithNull

  predicate Known(n: Numbers, target: Option<nat>) {
    target.None? || target.value in n
  }

  /** The number to insert behind: 0 for no target and for a target without a number. */
  function Anchor(n: Numbers, target: Option<nat>): real
    requires Known(n, target)
  {
    if target.Some? && n[target.value].Some? then n[target.value].value else 0.0
  }

  function Desired(n: Numbers, target: Option<nat>): int
    requires Known(n, target)
  {
    Channels.Truncate(Anchor(n, target)) + 1
  }

  /** The number the moved channel ends with. */
  function Landing(start: real, desired: int): real {
    if desired as real <= start then desired as real else desired as real - 1.0
  }

  /** The number any other channel with number `x` ends with. */
  function Displaced(x: real, start: real, desired: int): real {
    if desired as real <= x < start then x + 1.0
    else if start + 1.0 < desired as real && start < x < desired as real then x - 1.0
    else x
  }

  predicate Numbered(n: Numbers, c: nat) {
    c in n && n[c].Some?
  }

  function Reordered(n: Numbers, moved: nat, desired: int): Numbers
    requires Numbered(n, moved)
  {
    var start := n[moved].value;
    map c | c in n ::
      if c == moved then Some(Landing(start, desired))
      else if n[c].Some? then Some(Displaced(n[c].value, start, desired))
      else None
  }

  /** The whole number just above the target's number, fractions of a negative one being cut towards zero;
      1 without a target and behind one that has no number. */
  lemma DesiredMeans(n: Numbers, target: Option<nat>)
    requires Known(n, target)
    ensures if target.Some? && n[target.value].Some? then
        var x, desired := n[target.value].value, Desired(n, target) as real;
        if x >= 0.0 then x < desired <= x + 1.0 else x + 1.0 <= desired < x + 2.0
      else Desired(n, target) == 1
  {
    Channels.TruncateBounds(Anchor(n, target), Desired(n, target) - 1);
    Channels.TruncateBounds(Anchor(n, target), Desired(n, target));
  }

  class Lineup {
    var numbers: Numbers

    constructor (numbers: Numbers)
      ensures this.numbers == numbers
    {
      this.numbers := numbers;
    }

    /** One UPDATE: every number from `low` (itself included or not) to below `high` changes by `delta`. */
    method Shift(low: real, inclusive: bool, high: real, delta: real)
      modifies this
      ensures numbers.Keys == old(numbers.Keys)
      ensures forall c :: c in numbers ==>
        numbers[c] == if old(numbers)[c].Some? && (low < old(numbers)[c].value || (inclusive && low == old(numbers)[c].value))
                           && old(numbers)[c].value < high
                      then Some(old(numbers)[c].value + delta) else old(numbers)[c]
    {
      numbers := map c | c in numbers ::
        if numbers[c].Some? && (low < numbers[c].value || (inclusive && low == numbers[c].value)) && numbers[c].value < high
        then Some(numbers[c].value + delta) else numbers[c];
    }

    method Reorder(c: nat, target: Option<nat>) returns (outcome: Outcome)
      modifies this
      ensures outcome ==
        if c !in old(numbers) then NoSuchChannel
        else if !Known(old(numbers), target) then TargetNotFound
        else if old(numbers)[c].None? then ComparedWithNull
        else if Desired(old(numbers), target) as real == old(numbers)[c].value then AlreadyThere
        else MovedTo(Landing(old(numbers)[c].value, Desired(old(numbers), target)))
      ensures numbers ==
        if Numbered(old(numbers), c) && Known(old(numbers), target)
        then Reordered(old(numbers), c, Desired(old(numbers), target)) else old(numbers)
    {
      if c !in numbers {
        return NoSuchChannel;
      }
      var was := numbers[c];
      if target.Some? && target.value !in numbers {
        return TargetNotFound;
      }
      var desired := Desired(numbers, target);
      if was.None? {
        return ComparedWithNull;
      }
      var number := was.value;
      if desired as real == number {
        assert numbers == Reordered(numbers, c, desired);
        return AlreadyThere;
      }
      if desired as real < number {
        Shift(desired as real, true, number, 1.0);
        numbers := numbers[c := Some(desired as real)];
      } else {
        if desired as real > number + 1.0 {
          Shift(number, false, desired as real, -1.0);
        }
        numbers := numbers[c := Some(desired as real - 1.0)];
      }
      outcome := MovedTo(numbers[c].value);
      assert numbers == Reordered(old(numbers), c, desired);
    }
  }

  /* Distinct numbers */

  ghost predicate Distinct(n: Numbers) {
    forall b: nat, c: nat :: Numbered(n, b) && Numbered(n, c) && b != c ==> n[b].value != n[c].value
  }

  /** Nothing left in place is one step behind or ahead of a channel that shifts across the vacated number,
      and a move of at most one lands on a free number. */
  ghost predicate NoClash(n: Numbers, moved: nat, desired: int)
    requires Numbered(n, moved)
  {
    var start := n[moved].value;
    if desired as real <= start then
      forall b: nat, c: nat :: Numbered(n, b) && Numbered(n, c) && desired as real <= n[b].value < start < n[c].value
        ==> n[c].value != n[b].value + 1.0
    else if start + 1.0 < desired as real then
      forall b: nat, c: nat :: Numbered(n, b) && Numbered(n, c) && n[b].value < start < n[c].value < desired as real
        ==> n[c].value != n[b].value + 1.0
    else
      forall c: nat :: Numbered(n, c) && c != moved ==> n[c].value != desired as real - 1.0
  }

  lemma NoClashKeepsDistinct(n: Numbers, moved: nat, desired: int)
    requires Numbered(n, moved) && Distinct(n) && NoClash(n, moved, desired)
    ensures Distinct(Reordered(n, moved, desired))
  {
    var after := Reordered(n, moved, desired);
    forall b: nat, c: nat | Numbered(after, b) && Numbered(after, c) && b != c ensures after[b].value != after[c].value {
      assert Numbered(n, b) && Numbered(n, c);
    }
  }

  lemma ClashCollides(n: Numbers, moved: nat, desired: int)
    requires Numbered(n, moved) && !NoClash(n, moved, desired)
    ensures !Distinct(Reordered(n, moved, desired))
  {
    var start := n[moved].value;
    var after := Reordered(n, moved, desired);
    if desired as real <= start {
      var b: nat, c: nat :| Numbered(n, b) && Numbered(n, c) && desired as real <= n[b].value < start < n[c].value && n[c].value == n[b].value + 1.0;
      assert Numbered(after, b) && Numbered(after, c) && after[b] == after[c];
    } else if start + 1.0 < desired as real {
      var b: nat, c: nat :| Numbered(n, b) && Numbered(n, c) && n[b].value < start < n[c].value < desired as real && n[c].value == n[b].value + 1.0;
      assert Numbered(after, b) && Numbered(after, c) && after[b] == after[c];
    } else {
      var c: nat :| Numbered(n, c) && c != moved && n[c].value == desired as real - 1.0;
      assert Numbered(after, moved) && Numbered(after, c) && after[moved] == after[c];
    }
  }

  lemma DistinctIffNoClash(n: Numbers, moved: nat, desired: int)
    requires Numbered(n, moved) && Distinct(n)
    ensures Distinct(Reordered(n, moved, desired)) <==> NoClash(n, moved, desired)
  {
    if NoClash(n, moved, desired) {
      NoClashKeepsDistinct(n, moved, desired);
    } else {
      ClashCollides(n, moved, desired);
    }
  }

  /* Where the moved channel lands */

  /** The moved channel ends up right behind the channels numbered below `desired`. */
  ghost predicate Placed(n: Numbers, moved: nat, desired: int)
    requires Numbered(n, moved)
  {
    forall c: nat :: Numbered(n, c) && c != moved ==>
      var after := Reordered(n, moved, desired);
      after[c].value < after[moved].value <==> n[c].value < desired as real
  }

  /** It does for every numbering, fractions included, unless the move is of at most one place and another
      channel's number shares the whole number before `desired`. */
  lemma PlacedExactly(n: Numbers, moved: nat, desired: int)
    requires Numbered(n, moved)
    ensures Placed(n, moved, desired) <==>
      (n[moved].value < desired as real <= n[moved].value + 1.0 ==>
        forall c: nat :: Numbered(n, c) && c != moved ==> !(desired as real - 1.0 <= n[c].value < desired as real))
  {
    var after := Reordered(n, moved, desired);
    forall c: nat | Numbered(n, c) && c != moved
      ensures (after[c].value < after[moved].value <==> n[c].value < desired as real) <==>
        !(n[moved].value < desired as real <= n[moved].value + 1.0 && desired as real - 1.0 <= n[c].value < desired as real)
    {
    }
  }

  /* Whole numbers: the same move on integers */

  type Wholes = map<nat, Option<int>>

  function Floats(m: Wholes): Numbers {
    map c | c in m :: if m[c].Some? then Some(m[c].value as real) else None
  }

  predicate Has(m: Wholes, c: nat) {
    c in m && m[c].Some?
  }

  function Behind(m: Wholes, target: Option<nat>): int
    requires target.None? || target.value in m
  {
    if target.Some? && m[target.value].Some? then m[target.value].value + 1 else 1
  }

  function Place(start: int, desired: int): int {
    if desired <= start then desired else desired - 1
  }

  function Slid(x: int, start: int, desired: int): int {
    if desired <= x < start then x + 1 else if start < x < desired then x - 1 else x
  }

  function Slide(m: Wholes, moved: nat, desired: int): Wholes
    requires Has(m, moved)
  {
    map c | c in m ::
      if c == moved then Some(Place(m[moved].value, desired))
      else if m[c].Some? then Some(Slid(m[c].value, m[moved].value, desired))
      else None
  }

  lemma SlidAsReal(x: int, start: int, desired: int)
    requires x != start
    ensures Displaced(x as real, start as real, desired) == Slid(x, start, desired) as real
  {
    assert desired as real <= x as real <==> desired <= x;
    assert start as real + 1.0 == (start + 1) as real;
  }

  ghost predicate NoTwoAlike(m: Wholes) {
    forall b, c :: Has(m, b) && Has(m, c) && b != c ==> m[b].value != m[c].value
  }

  /** On whole, distinct numbers the float arithmetic of the move is this integer arithmetic. */
  lemma ReorderedIsSlide(m: Wholes, moved: nat, target: Option<nat>)
    requires Has(m, moved) && NoTwoAlike(m) && (target.None? || target.value in m)
    ensures Desired(Floats(m), target) == Behind(m, target)
    ensures Reordered(Floats(m), moved, Desired(Floats(m), target)) == Floats(Slide(m, moved, Behind(m, target)))
  {
    DesiredIsBehind(m, target);
    var desired := Behind(m, target);
    var float := Reordered(Floats(m), moved, desired);
    var whole := Floats(Slide(m, moved, desired));
    forall c | c in m ensures float[c] == whole[c] {
      if c != moved && m[c].Some? {
        assert Has(m, c) && Has(m, moved);
        SlidAsReal(m[c].value, m[moved].value, desired);
      }
    }
    assert float.Keys == whole.Keys;
  }

  lemma DesiredIsBehind(m: Wholes, target: Option<nat>)
    requires target.None? || target.value in m
    ensures Desired(Floats(m), target) == Behind(m, target)
  {
    if target.Some? && m[target.value].Some? {
      TruncateWhole(m[target.value].value);
    } else {
      TruncateWhole(0);
    }
  }

  lemma TruncateWhole(i: int)
    ensures Channels.Truncate(i as real) == i
  {
    assert -(i as real) == (-i) as real;
    assert (i as real).Floor == i && ((-i) as real).Floor == -i;
  }

  lemma SlideKeepsDistinct(m: Wholes, moved: nat, desired: int)
    requires Has(m, moved) && NoTwoAlike(m)
    ensures NoTwoAlike(Slide(m, moved, desired))
  {
    var after := Slide(m, moved, desired);
    forall b, c | Has(after, b) && Has(after, c) && b != c ensures after[b].value != after[c].value {
      assert Has(m, b) && Has(m, c) && Has(m, moved);
    }
  }

  lemma OthersKeepTheirOrder(m: Wholes, moved: nat, desired: int, b: nat, c: nat)
    requires Has(m, moved) && NoTwoAlike(m) && Has(m, b) && Has(m, c) && b != moved && c != moved
    ensures var after := Slide(m, moved, desired);
      m[b].value < m[c].value <==> after[b].value < after[c].value
  {
    assert m[b].value != m[moved].value && m[c].value != m[moved].value;
  }

  /** The channels before the moved one are exactly those that were numbered up to the target, and so the
      target is the last of them; without a target they are those numbered 0 or less. */
  lemma ImmediatelyAfterTarget(m: Wholes, moved: nat, target: Option<nat>, c: nat)
    requires Has(m, moved) && NoTwoAlike(m) && (target.None? || target.value in m) && target != Some(moved)
    requires Has(m, c) && c != moved
    ensures var after := Slide(m, moved, Behind(m, target));
      after[c].value < after[moved].value <==>
        m[c].value <= if target.Some? && m[target.value].Some? then m[target.value].value else 0
  {
    assert m[c].value != m[moved].value;
  }

  /* Which numbers are in use */

  ghost predicate Used(m: Wholes, v: int) {
    exists c :: Has(m, c) && m[c].value == v
  }

  /** The numbers from the moved channel's own to the one it lands on. */
  predicate InSpan(start: int, desired: int, v: int) {
    if desired <= start then desired <= v <= start else start <= v < desired
  }

  ghost predicate SpanUsed(m: Wholes, moved: nat, desired: int)
    requires Has(m, moved)
  {
    forall v :: InSpan(m[moved].value, desired, v) ==> Used(m, v)
  }

  ghost predicate SameNumbers(m: Wholes, m': Wholes) {
    forall v :: Used(m, v) <==> Used(m', v)
  }

  lemma UsedSurvives(m: Wholes, moved: nat, desired: int, v: int)
    requires Has(m, moved) && NoTwoAlike(m) && SpanUsed(m, moved, desired) && Used(m, v)
    ensures Used(Slide(m, moved, desired), v)
  {
    var start := m[moved].value;
    var after := Slide(m, moved, desired);
    if v == Place(start, desired) {
      assert Has(after, moved) && after[moved].value == v;
    } else {
      var source := if !InSpan(start, desired, v) then v else if desired <= start then v - 1 else v + 1;
      assert InSpan(start, desired, v) ==> InSpan(start, desired, source);
      assert Used(m, source);
      var c :| Has(m, c) && m[c].value == source;
      assert Has(after, c) && after[c].value == v;
    }
  }

  lemma NothingNewUsed(m: Wholes, moved: nat, desired: int, v: int)
    requires Has(m, moved) && SpanUsed(m, moved, desired) && Used(Slide(m, moved, desired), v)
    ensures Used(m, v)
  {
    var c :| Has(Slide(m, moved, desired), c) && Slide(m, moved, desired)[c].value == v;
    assert Has(m, c);
    if m[c].value != v {
      assert InSpan(m[moved].value, desired, v);
    }
  }

  /** If the numbers in use stay the same, each number of the span puts its neighbour in use. */
  lemma {:induction false} SpanFilled(m: Wholes, moved: nat, desired: int, v: int)
    requires Has(m, moved) && SameNumbers(m, Slide(m, moved, desired)) && InSpan(m[moved].value, desired, v)
    ensures Used(m, v)
    decreases if desired <= m[moved].value then v - desired else desired - v
  {
    var start := m[moved].value;
    var after := Slide(m, moved, desired);
    if v == start {
      assert Has(m, moved);
    } else if v == Place(start, desired) {
      assert Has(after, moved) && after[moved].value == v;
      assert Used(after, v);
    } else {
      var next := if desired <= start then v - 1 else v + 1;
      SpanFilled(m, moved, desired, next);
      var c :| Has(m, c) && m[c].value == next;
      assert Has(after, c) && after[c].value == v;
      assert Used(after, v);
    }
  }

  /** The set of numbers in use is preserved exactly when no number between the two positions is unused. */
  lemma SameNumbersIffSpanUsed(m: Wholes, moved: nat, desired: int)
    requires Has(m, moved) && NoTwoAlike(m)
    ensures SameNumbers(m, Slide(m, moved, desired)) <==> SpanUsed(m, moved, desired)
  {
    var after := Slide(m, moved, desired);
    if SpanUsed(m, moved, desired) {
      forall v ensures Used(m, v) <==> Used(after, v) {
        if Used(m, v) { UsedSurvives(m, moved, desired, v); }
        if Used(after, v) { NothingNewUsed(m, moved, desired, v); }
      }
    }
    if SameNumbers(m, after) {
      forall v | InSpan(m[moved].value, desired, v) ensures Used(m, v) {
        SpanFilled(m, moved, desired, v);
      }
    }
  }

  /* Repeating and undoing */

  lemma ReorderIsIdempotent(m: Wholes, moved: nat, target: Option<nat>)
    requires Has(m, moved) && NoTwoAlike(m) && (target.None? || target.value in m)
    ensures var after := Slide(m, moved, Behind(m, target));
      Slide(after, moved, Behind(after, target)) == after
  {
    var after := Slide(m, moved, Behind(m, target));
    var again := Slide(after, moved, Behind(after, target));
    assert target.Some? && Has(m, target.value) && target.value != moved ==> m[target.value].value != m[moved].value;
    forall c | c in after ensures again[c] == after[c] {
      assert c != moved && Has(m, c) ==> m[c].value != m[moved].value;
    }
  }

  /** Moving back behind the channel that came directly before restores every number. */
  lemma MovingBackRestores(m: Wholes, moved: nat, desired: int, before: nat)
    requires Has(m, moved) && NoTwoAlike(m) && Has(m, before) && m[before].value == m[moved].value - 1
    ensures var after := Slide(m, moved, desired);
      Slide(after, moved, Behind(after, Some(before))) == m
  {
    var after := Slide(m, moved, desired);
    var again := Slide(after, moved, Behind(after, Some(before)));
    forall c | c in m ensures again[c] == m[c] {
      assert c != moved && Has(m, c) ==> m[c].value != m[moved].value;
    }
  }

  /* Fractional numbers */

  /** Moving 2.5 behind 2 gives both the number 2. */
  lemma FractionalMoveCollides()
    ensures var n := map[1 := Some(2.0), 2 := Some(2.5)];
      Distinct(n) && !Distinct(Reordered(n, 2, Desired(n, Some(1))))
  {
    var n := map[1 := Some(2.0), 2 := Some(2.5)];
    var after := Reordered(n, 2, Desired(n, Some(1)));
    assert Numbered(after, 1) && Numbered(after, 2) && after[1] == after[2];
  }

  /** Moving 2.5 behind 2.2 puts it before 2.2. */
  lemma FractionalMoveLandsBefore()
    ensures var n := map[1 := Some(2.2), 2 := Some(2.5)];
      var after := Reordered(n, 2, Desired(n, Some(1)));
      after[2].value < after[1].value
  {
  }
}
