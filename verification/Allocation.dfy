/** Handing out the free whole numbers of a range, lowest first. */
module Allocation {
  import opened Options
  import opened Sets

  /** Membership as Python tests it: the whole number equals a number in use. */
  predicate Taken(used: set<real>, n: int) {
    n as real in used
  }

  /** The numbers taken at or above `n`. */
  ghost function TakenFrom(used: set<real>, n: int): set<real> {
    set x | x in used && n as real <= x
  }

  /** The least whole number at or above `n` that is not in use and not beyond `end`. */
  function NextFree(used: set<real>, n: int, end: Option<int>): (free: Option<int>)
    ensures free.Some? ==> n <= free.value && !Taken(used, free.value) && (end.Some? ==> free.value <= end.value)
    ensures free.Some? ==> forall m :: n <= m < free.value ==> Taken(used, m)
    ensures free.None? ==> end.Some? && forall m :: n <= m <= end.value ==> Taken(used, m)
    decreases |TakenFrom(used, n)|
  {
    if end.Some? && n > end.value then None
    else if Taken(used, n) then
      FewerTaken(used, n);
      NextFree(used, n + 1, end)
    else Some(n)
  }

  lemma FewerTaken(used: set<real>, n: int)
    requires Taken(used, n)
    ensures |TakenFrom(used, n + 1)| < |TakenFrom(used, n)|
  {
    var rest := TakenFrom(used, n) - {n as real};
    assert |rest| < |TakenFrom(used, n)|;
    assert TakenFrom(used, n + 1) <= rest;
    SubsetSize(TakenFrom(used, n + 1), rest);
  }

  /** The search as the code runs it. */
  method NextAvailableNumber(used: set<real>, start: int, end: Option<int>) returns (r: Option<int>)
    ensures r == NextFree(used, start, end)
  {
    var n := start;
    while Taken(used, n)
      invariant start <= n && NextFree(used, n, end) == NextFree(used, start, end)
      decreases |TakenFrom(used, n)|
    {
      FewerTaken(used, n);
      n := n + 1;
      if end.Some? && n > end.value {
        return None;
      }
    }
    if end.Some? && n > end.value {
      return None;
    }
    return Some(n);
  }

  /** The first `k` free numbers from `n` on, or all there are. */
  function FreeNumbers(used: set<real>, n: int, end: Option<int>, k: nat): (nums: seq<int>)
    ensures |nums| <= k
    decreases k
  {
    if k == 0 then []
    else match NextFree(used, n, end)
      case None => []
      case Some(m) => [m] + FreeNumbers(used, m + 1, end, k - 1)
  }

  ghost predicate InRange(m: int, n: int, end: Option<int>) {
    n <= m && (end.Some? ==> m <= end.value)
  }

  /** `nums` are strictly increasing free numbers of the range, and no free number of the range at
      or below one of them is left out. */
  ghost predicate AreFirstFree(nums: seq<int>, used: set<real>, n: int, end: Option<int>) {
    && (forall i :: 0 <= i < |nums| ==> InRange(nums[i], n, end) && !Taken(used, nums[i]))
    && (forall i, j :: 0 <= i < j < |nums| ==> nums[i] < nums[j])
    && forall m, i {:trigger m in nums, nums[i]} :: 0 <= i < |nums| && n <= m <= nums[i] && !Taken(used, m) ==> m in nums
  }

  lemma {:induction false} FreeNumbersAreFirst(used: set<real>, n: int, end: Option<int>, k: nat)
    ensures AreFirstFree(FreeNumbers(used, n, end, k), used, n, end)
    decreases k
  {
    var nums := FreeNumbers(used, n, end, k);
    if nums != [] {
      var rest := FreeNumbers(used, nums[0] + 1, end, k - 1);
      FreeNumbersAreFirst(used, nums[0] + 1, end, k - 1);
      assert nums == [nums[0]] + rest;
      forall m, i | 0 <= i < |nums| && n <= m <= nums[i] && !Taken(used, m)
        ensures m in nums
      {
        if m > nums[0] {
          assert nums[i] == rest[i - 1];
          assert m in rest;
        }
      }
    }
  }

  /** Fewer numbers than asked for means that none of the range is left. */
  lemma {:induction false} FreeNumbersExhaust(used: set<real>, n: int, end: Option<int>, k: nat)
    requires |FreeNumbers(used, n, end, k)| < k
    ensures end.Some?
    ensures forall m :: InRange(m, n, end) && !Taken(used, m) ==> m in FreeNumbers(used, n, end, k)
    decreases k
  {
    var nums := FreeNumbers(used, n, end, k);
    if nums != [] {
      var rest := FreeNumbers(used, nums[0] + 1, end, k - 1);
      assert nums == [nums[0]] + rest;
      FreeNumbersExhaust(used, nums[0] + 1, end, k - 1);
      forall m | InRange(m, n, end) && !Taken(used, m)
        ensures m in nums
      {
        if m > nums[0] {
          assert m in rest;
        }
      }
    }
  }

  /** The first free numbers are determined by how many there are. */
  lemma {:induction false} FirstFreeUnique(a: seq<int>, b: seq<int>, used: set<real>, n: int, end: Option<int>, i: nat)
    requires AreFirstFree(a, used, n, end) && AreFirstFree(b, used, n, end) && i < |a| && i < |b|
    ensures a[i] == b[i]
  {
    forall j: nat | j < i
      ensures a[j] == b[j]
    {
      FirstFreeUnique(a, b, used, n, end, j);
    }
    if a[i] <= b[i] {
      FirstFreeAgree(a, b, used, n, end, i);
    } else {
      FirstFreeAgree(b, a, used, n, end, i);
    }
  }

  lemma FirstFreeAgree(a: seq<int>, b: seq<int>, used: set<real>, n: int, end: Option<int>, i: nat)
    requires AreFirstFree(a, used, n, end) && AreFirstFree(b, used, n, end) && i < |a| && i < |b|
    requires forall j: nat :: j < i ==> a[j] == b[j]
    requires a[i] <= b[i]
    ensures a[i] == b[i]
  {
    assert a[i] in b;
    var j :| 0 <= j < |b| && b[j] == a[i];
  }

  /** Only the numbers of the range matter. */
  lemma {:induction false} NextFreeScoped(used: set<real>, scoped: set<real>, n: int, end: Option<int>)
    requires forall m :: InRange(m, n, end) ==> (Taken(used, m) <==> Taken(scoped, m))
    ensures NextFree(used, n, end) == NextFree(scoped, n, end)
    decreases |TakenFrom(used, n)|
  {
    if InRange(n, n, end) && Taken(used, n) {
      FewerTaken(used, n);
      FewerTaken(scoped, n);
      NextFreeScoped(used, scoped, n + 1, end);
    }
  }

  lemma {:induction false} FreeNumbersScoped(used: set<real>, scoped: set<real>, n: int, end: Option<int>, k: nat)
    requires forall m :: InRange(m, n, end) ==> (Taken(used, m) <==> Taken(scoped, m))
    ensures FreeNumbers(used, n, end, k) == FreeNumbers(scoped, n, end, k)
    decreases k
  {
    if k > 0 {
      NextFreeScoped(used, scoped, n, end);
      var free := NextFree(used, n, end);
      if free.Some? {
        FreeNumbersScoped(used, scoped, free.value + 1, end, k - 1);
      }
    }
  }

  /** The numbers in use once the first `j` of `nums` have been given out. */
  function WithGiven(used: set<real>, nums: seq<int>, j: nat): set<real>
    requires j <= |nums|
  {
    used + set i: nat | i < j :: nums[i] as real
  }

  lemma GivenOneMore(used: set<real>, nums: seq<int>, j: nat)
    requires j < |nums|
    ensures WithGiven(used, nums, j + 1) == WithGiven(used, nums, j) + {nums[j] as real}
  {
  }

  /** Searching from the start again, with the numbers already given out in use, finds the next one. */
  lemma NextAfterGiven(used: set<real>, n: int, end: Option<int>, k: nat, j: nat)
    requires j <= |FreeNumbers(used, n, end, k)| && j < k
    ensures var nums := FreeNumbers(used, n, end, k);
      NextFree(WithGiven(used, nums, j), n, end) == if j < |nums| then Some(nums[j]) else None
  {
    var nums := FreeNumbers(used, n, end, k);
    var now := WithGiven(used, nums, j);
    var next := NextFree(now, n, end);
    FreeNumbersAreFirst(used, n, end, k);
    if j < |nums| {
      assert !Taken(now, nums[j]);
      if next.Some? && next.value < nums[j] {
        GivenBelow(used, n, end, nums, j, next.value);
      }
    } else {
      FreeNumbersExhaust(used, n, end, k);
      forall m | InRange(m, n, end)
        ensures Taken(now, m)
      {
        if !Taken(used, m) {
          assert m in nums;
          var i: nat :| i < |nums| && nums[i] == m;
          assert nums[i] as real in now;
        }
      }
    }
  }

  /** Every free number below the next one to give has been given. */
  lemma GivenBelow(used: set<real>, n: int, end: Option<int>, nums: seq<int>, j: nat, m: int)
    requires AreFirstFree(nums, used, n, end) && j < |nums| && n <= m < nums[j]
    ensures Taken(WithGiven(used, nums, j), m)
  {
    if !Taken(used, m) {
      assert m in nums && m <= nums[j];
      var i: nat :| i < |nums| && nums[i] == m;
      assert i < j;
      assert nums[i] as real in WithGiven(used, nums, j);
    }
  }
}
