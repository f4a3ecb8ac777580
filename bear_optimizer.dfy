/** The rally troop-allocation calculator of the Bear event page.

    Troop counts and rally capacities are read from six inputs.  Archers fill
    the total capacity first; the capacity they leave is split between
    cavalry and infantry (`allocateRemaining`); the resulting mix is then
    turned into whole troop counts for the lead rally and for one joining
    rally by largest-remainder apportionment (`allocateByPercent`), and the
    joining row is multiplied by the number of joining rallies.

    Numbers are exact: JavaScript doubles become `real` and `int`. */
module BearOptimizer {
  import opened Wrappers

  // ---------------------------------------------------------------------
  // Small numeric helpers (Math.min, Math.max, Math.round)
  // ---------------------------------------------------------------------

  function Min(a: int, b: int): int { if a <= b then a else b }
  function Max(a: int, b: int): int { if a >= b then a else b }
  function RMin(a: real, b: real): real { if a <= b then a else b }
  function RMax(a: real, b: real): real { if a >= b then a else b }

  /** Math.round: the nearest integer, halves rounded up. */
  function Round(x: real): (r: int)
    ensures x - 0.5 < r as real <= x + 0.5
  {
    (x + 0.5).Floor
  }

  /** parseNumber: the result of Number.parseInt (None for NaN) is kept
      when it is positive, anything else reads as 0. */
  function ParseNumber(parsed: Option<int>): (r: nat)
    ensures r > 0 ==> parsed == Some(r)
    ensures parsed.Some? && parsed.value > 0 ==> r == parsed.value
  {
    if parsed.Some? && parsed.value > 0 then parsed.value else 0
  }

  /** clamp(value, min, max) = Math.min(Math.max(value, min), max). */
  function Clamp(value: int, lo: int, hi: int): (r: int)
    ensures lo <= hi ==> lo <= r <= hi
    ensures lo <= value <= hi ==> r == value
    ensures value < lo && lo <= hi ==> r == lo
    ensures hi < value ==> r == hi
  {
    Min(Max(value, lo), hi)
  }

  // ---------------------------------------------------------------------
  // allocateRemaining: splitting what the archers leave
  // ---------------------------------------------------------------------

  datatype Split = Split(cavalry: real, infantry: real)

  /** Closed form of the cavalry/infantry split: each side takes half of the
      remaining capacity, or more when the other side cannot fill its half,
      but never more than is available. */
  function SplitRemaining(remaining: nat, cavAvailable: nat, infAvailable: nat): (s: Split)
    ensures 0.0 <= s.cavalry <= cavAvailable as real && 0.0 <= s.infantry <= infAvailable as real
    ensures s.cavalry + s.infantry == RMin(remaining as real, (cavAvailable + infAvailable) as real)
  {
    var rem := remaining as real;
    Split(RMin(cavAvailable as real, RMax(rem / 2.0, rem - infAvailable as real)),
          RMin(infAvailable as real, RMax(rem / 2.0, rem - cavAvailable as real)))
  }

  /** The closed form never exceeds availability, fills the capacity as far
      as the troops allow, and is an even split when both sides have enough. */
  lemma SplitRemainingProperties(remaining: nat, cavAvailable: nat, infAvailable: nat)
    ensures var s := SplitRemaining(remaining, cavAvailable, infAvailable);
      && 0.0 <= s.cavalry <= cavAvailable as real
      && 0.0 <= s.infantry <= infAvailable as real
      && s.cavalry + s.infantry == RMin(remaining as real, (cavAvailable + infAvailable) as real)
      && (cavAvailable as real >= remaining as real / 2.0 && infAvailable as real >= remaining as real / 2.0
          ==> s.cavalry == s.infantry == remaining as real / 2.0)
  {
  }

  /** allocateRemaining, step by step as the page computes it. */
  method AllocateRemaining(remaining: nat, cavAvailable: nat, infAvailable: nat)
    returns (cavalry: real, infantry: real)
    ensures Split(cavalry, infantry) == SplitRemaining(remaining, cavAvailable, infAvailable)
    ensures 0.0 <= cavalry <= cavAvailable as real && 0.0 <= infantry <= infAvailable as real
    ensures cavalry + infantry == RMin(remaining as real, (cavAvailable + infAvailable) as real)
    ensures cavAvailable as real >= remaining as real / 2.0 && infAvailable as real >= remaining as real / 2.0
            ==> cavalry == infantry == remaining as real / 2.0
  {
    var rem := remaining as real;
    cavalry := RMin(cavAvailable as real, rem / 2.0);
    infantry := RMin(infAvailable as real, rem / 2.0);
    var leftover := rem - cavalry - infantry;

    if leftover > 0.0 {
      var cavRoom := cavAvailable as real - cavalry;
      var infRoom := infAvailable as real - infantry;
      if cavRoom >= infRoom {
        var addCav := RMin(leftover, cavRoom);
        cavalry := cavalry + addCav;
        leftover := leftover - addCav;
      }
      if leftover > 0.0 {
        var addInf := RMin(leftover, infAvailable as real - infantry);
        infantry := infantry + addInf;
        leftover := leftover - addInf;
      }
    }
    SplitRemainingProperties(remaining, cavAvailable, infAvailable);
  }

  // ---------------------------------------------------------------------
  // allocateByPercent: largest-remainder apportionment
  // ---------------------------------------------------------------------

  function SumInt(s: seq<int>): int
  {
    if s == [] then 0 else s[0] + SumInt(s[1..])
  }

  function SumReal(s: seq<real>): real
  {
    if s == [] then 0.0 else s[0] + SumReal(s[1..])
  }

  /** capacity * percent for every type. */
  function Shares(capacity: int, percents: seq<real>): (r: seq<real>)
    ensures |r| == |percents|
  {
    if percents == [] then [] else [capacity as real * percents[0]] + Shares(capacity, percents[1..])
  }

  function Floors(shares: seq<real>): (r: seq<int>)
    ensures |r| == |shares|
  {
    if shares == [] then [] else [shares[0].Floor] + Floors(shares[1..])
  }

  function Fractions(shares: seq<real>): (r: seq<real>)
    ensures |r| == |shares|
  {
    if shares == [] then [] else [shares[0] - shares[0].Floor as real] + Fractions(shares[1..])
  }

  /** The three sequences entry by entry. */
  lemma {:induction false} SharesAt(capacity: int, percents: seq<real>, i: nat)
    requires i < |percents|
    ensures Shares(capacity, percents)[i] == capacity as real * percents[i]
    ensures Floors(Shares(capacity, percents))[i] == (capacity as real * percents[i]).Floor
    ensures Fractions(Shares(capacity, percents))[i]
         == capacity as real * percents[i] - (capacity as real * percents[i]).Floor as real
  {
    if i > 0 {
      SharesAt(capacity, percents[1..], i - 1);
    }
  }

  /** Index i comes before index j in the page's sort: a larger fractional
      part first and, the sort being stable, the lower index on a tie. */
  predicate Precedes(fracs: seq<real>, i: int, j: int)
    requires 0 <= i < |fracs| && 0 <= j < |fracs|
  {
    fracs[i] > fracs[j] || (fracs[i] == fracs[j] && i < j)
  }

  predicate SortedByFraction(fracs: seq<real>, order: seq<nat>)
    requires forall p :: 0 <= p < |order| ==> order[p] < |fracs|
  {
    forall p, q :: 0 <= p < q < |order| ==> Precedes(fracs, order[p], order[q])
  }

  /** Inserts index k into an order that is already sorted. */
  function InsertByFraction(fracs: seq<real>, k: nat, order: seq<nat>): (r: seq<nat>)
    requires k < |fracs| && k !in order
    requires forall p :: 0 <= p < |order| ==> order[p] < |fracs|
    requires SortedByFraction(fracs, order)
    ensures |r| == |order| + 1
    ensures forall x :: x in r <==> x == k || x in order
    ensures forall p :: 0 <= p < |r| ==> r[p] < |fracs|
    ensures SortedByFraction(fracs, r)
    decreases |order|
  {
    if order == [] || Precedes(fracs, k, order[0]) then
      [k] + order
    else
      var rest := InsertByFraction(fracs, k, order[1..]);
      assert forall x :: x in rest ==> Precedes(fracs, order[0], x) by {
        forall x | x in rest
          ensures Precedes(fracs, order[0], x)
        {
          if x != k {
            var q :| 1 <= q < |order| && order[q] == x;
          }
        }
      }
      [order[0]] + rest
  }

  /** The indices 0 .. n-1 in the order of the page's stable sort by
      descending fractional part. */
  function SortByFraction(fracs: seq<real>, n: nat): (order: seq<nat>)
    requires n <= |fracs|
    ensures |order| == n
    ensures forall x :: x in order <==> 0 <= x < n
    ensures forall p :: 0 <= p < n ==> order[p] < n
    ensures SortedByFraction(fracs, order)
  {
    if n == 0 then []
    else
      var r := InsertByFraction(fracs, n - 1, SortByFraction(fracs, n - 1));
      assert forall p :: 0 <= p < n ==> r[p] in r;
      r
  }

  /** The page's `while (remainder > 0)` loop after `count` rounds: round i
      adds one unit at index order[i % n]. */
  function Bumped(floors: seq<int>, order: seq<nat>, count: nat): (r: seq<int>)
    requires |order| == |floors| > 0
    requires forall p :: 0 <= p < |order| ==> order[p] < |floors|
    ensures |r| == |floors|
  {
    if count == 0 then floors
    else
      var prev := Bumped(floors, order, count - 1);
      var k := order[(count - 1) % |order|];
      prev[k := prev[k] + 1]
  }

  /** allocateByPercent as a function of its inputs. */
  function Apportion(capacity: int, percents: seq<real>): (r: seq<int>)
    requires |percents| > 0
    ensures |r| == |percents|
  {
    var shares := Shares(capacity, percents);
    var floors := Floors(shares);
    var deficit := capacity - SumInt(floors);
    Bumped(floors, SortByFraction(Fractions(shares), |shares|), if deficit > 0 then deficit else 0)
  }

  /** allocateByPercent: floors of the shares, then the missing units
      handed out one at a time, round-robin in sorted order. */
  method AllocateByPercent(capacity: int, percents: seq<real>) returns (results: seq<int>)
    requires |percents| > 0
    ensures results == Apportion(capacity, percents)
  {
    var base := Shares(capacity, percents);
    var floors := Floors(base);
    var remainder := capacity - SumInt(floors);
    var fractional := SortByFraction(Fractions(base), |percents|);
    results := DistributeRemainder(floors, fractional, remainder);
  }

  /** The `while (remainder > 0)` loop of allocateByPercent over the array of
      floors. */
  method DistributeRemainder(floors: seq<int>, order: seq<nat>, remainder: int) returns (results: seq<int>)
    requires |order| == |floors| > 0
    requires forall p :: 0 <= p < |order| ==> order[p] < |floors|
    ensures results == Bumped(floors, order, if remainder > 0 then remainder else 0)
  {
    var n := |floors|;
    var buffer := new int[n](i requires 0 <= i < n => floors[i]);
    var left := remainder;
    var i := 0;
    while left > 0
      invariant 0 <= i && left == remainder - i
      invariant remainder > 0 ==> left >= 0
      invariant remainder <= 0 ==> i == 0
      invariant buffer[..] == Bumped(floors, order, i)
    {
      var k := order[i % n];
      ghost var before := buffer[..];
      buffer[k] := buffer[k] + 1;
      assert buffer[..] == before[k := before[k] + 1];
      left := left - 1;
      i := i + 1;
    }
    results := buffer[..];
  }

  // --- facts about sums -------------------------------------------------

  lemma {:induction false} SumIntIncrement(s: seq<int>, k: nat)
    requires k < |s|
    ensures SumInt(s[k := s[k] + 1]) == SumInt(s) + 1
    decreases |s|
  {
    if k > 0 {
      SumIntIncrement(s[1..], k - 1);
      assert s[k := s[k] + 1][1..] == s[1..][k - 1 := s[k] + 1];
    }
  }

  lemma SumIntOfThree(s: seq<int>)
    requires |s| == 3
    ensures SumInt(s) == s[0] + s[1] + s[2]
  {
    assert SumInt(s) == s[0] + SumInt(s[1..]);
    assert SumInt(s[1..]) == s[1] + SumInt(s[2..]);
    assert SumInt(s[2..]) == s[2] + SumInt(s[3..]);
    assert s[3..] == [];
  }

  lemma SumRealOfThree(s: seq<real>)
    requires |s| == 3
    ensures SumReal(s) == s[0] + s[1] + s[2]
  {
    assert SumReal(s) == s[0] + SumReal(s[1..]);
    assert SumReal(s[1..]) == s[1] + SumReal(s[2..]);
    assert SumReal(s[2..]) == s[2] + SumReal(s[3..]);
    assert s[3..] == [];
  }

  lemma {:induction false} BumpedSum(floors: seq<int>, order: seq<nat>, count: nat)
    requires |order| == |floors| > 0
    requires forall p :: 0 <= p < |order| ==> order[p] < |floors|
    ensures SumInt(Bumped(floors, order, count)) == SumInt(floors) + count
  {
    if count > 0 {
      BumpedSum(floors, order, count - 1);
      SumIntIncrement(Bumped(floors, order, count - 1), order[(count - 1) % |order|]);
    }
  }

  lemma {:induction false} BumpedAtLeastFloors(floors: seq<int>, order: seq<nat>, count: nat)
    requires |order| == |floors| > 0
    requires forall p :: 0 <= p < |order| ==> order[p] < |floors|
    ensures forall k :: 0 <= k < |floors| ==> Bumped(floors, order, count)[k] >= floors[k]
  {
    if count > 0 {
      BumpedAtLeastFloors(floors, order, count - 1);
    }
  }

  /** With no more rounds than indices, the first `count` indices of the
      order each receive exactly one extra unit and the others none. */
  lemma {:induction false} BumpedFew(fracs: seq<real>, floors: seq<int>, order: seq<nat>, count: nat)
    requires |order| == |floors| == |fracs| > 0
    requires forall p :: 0 <= p < |order| ==> order[p] < |floors|
    requires SortedByFraction(fracs, order)
    requires count <= |order|
    ensures forall k :: 0 <= k < |floors| ==>
      Bumped(floors, order, count)[k] == floors[k] + (if k in order[..count] then 1 else 0)
  {
    if count > 0 {
      BumpedFew(fracs, floors, order, count - 1);
      assert (count - 1) % |order| == count - 1;
      assert order[..count] == order[..count - 1] + [order[count - 1]];
      forall p | 0 <= p < count - 1
        ensures order[p] != order[count - 1]
      {
        assert Precedes(fracs, order[p], order[count - 1]);
      }
    }
  }

  lemma MulAtMostOne(a: real, b: real)
    requires a >= 0.0 && b <= 1.0
    ensures a * b <= a
  {
    assert a * (1.0 - b) >= 0.0;
  }

  /** The shares add up to capacity times the sum of the percentages. */
  lemma {:induction false} SharesSum(capacity: int, percents: seq<real>)
    ensures SumReal(Shares(capacity, percents)) == capacity as real * SumReal(percents)
    decreases |percents|
  {
    if percents != [] {
      SharesSum(capacity, percents[1..]);
      var c := capacity as real;
      assert Shares(capacity, percents)[1..] == Shares(capacity, percents[1..]);
      assert c * SumReal(percents) == c * percents[0] + c * SumReal(percents[1..]);
    }
  }

  /** Sum of the floors plus sum of the fractional parts is the sum of the shares. */
  lemma {:induction false} FloorsPlusFractions(shares: seq<real>)
    ensures SumInt(Floors(shares)) as real + SumReal(Fractions(shares)) == SumReal(shares)
    ensures SumReal(Fractions(shares)) < |shares| as real || shares == []
    ensures 0.0 <= SumReal(Fractions(shares))
    decreases |shares|
  {
    if shares != [] {
      FloorsPlusFractions(shares[1..]);
      assert Floors(shares)[1..] == Floors(shares[1..]);
      assert Fractions(shares)[1..] == Fractions(shares[1..]);
    }
  }

  // --- what allocateByPercent promises -------------------------------

  /** The floors of the shares never exceed the capacity. */
  lemma FloorsAtMostCapacity(capacity: int, percents: seq<real>)
    requires capacity >= 0 && SumReal(percents) <= 1.0
    ensures SumInt(Floors(Shares(capacity, percents))) <= capacity
  {
    var shares := Shares(capacity, percents);
    SharesSum(capacity, percents);
    FloorsPlusFractions(shares);
    FloorBound(SumInt(Floors(shares)), SumReal(Fractions(shares)), SumReal(shares), capacity, SumReal(percents));
  }

  lemma FloorBound(floorSum: int, fractionSum: real, shareSum: real, capacity: int, percentSum: real)
    requires floorSum as real + fractionSum == shareSum && fractionSum >= 0.0
    requires shareSum == capacity as real * percentSum
    requires capacity >= 0 && percentSum <= 1.0
    ensures floorSum <= capacity
  {
    MulAtMostOne(capacity as real, percentSum);
  }

  /** The counts add up to the capacity exactly, whenever the percentages
      add up to at most 1 (the page passes a mix summing to 1, or all zeros). */
  lemma ApportionSum(capacity: int, percents: seq<real>)
    requires |percents| > 0
    requires capacity >= 0 && SumReal(percents) <= 1.0
    ensures SumInt(Apportion(capacity, percents)) == capacity
  {
    var shares := Shares(capacity, percents);
    var floors := Floors(shares);
    FloorsAtMostCapacity(capacity, percents);
    var order := SortByFraction(Fractions(shares), |shares|);
    var deficit: nat := capacity - SumInt(floors);
    assert Apportion(capacity, percents) == Bumped(floors, order, deficit);
    BumpedSum(floors, order, deficit);
  }

  /** With non-negative percentages every count is non-negative. */
  lemma ApportionNonNegative(capacity: int, percents: seq<real>)
    requires |percents| > 0
    requires capacity >= 0 && forall i :: 0 <= i < |percents| ==> percents[i] >= 0.0
    ensures forall i :: 0 <= i < |percents| ==> Apportion(capacity, percents)[i] >= 0
  {
    var shares := Shares(capacity, percents);
    var floors := Floors(shares);
    var deficit := capacity - SumInt(floors);
    var order := SortByFraction(Fractions(shares), |shares|);
    BumpedAtLeastFloors(floors, order, if deficit > 0 then deficit else 0);
    FloorsNonNegative(capacity, percents);
  }

  lemma {:induction false} FloorsNonNegative(capacity: int, percents: seq<real>)
    requires capacity >= 0 && forall i :: 0 <= i < |percents| ==> percents[i] >= 0.0
    ensures forall i :: 0 <= i < |percents| ==> Floors(Shares(capacity, percents))[i] >= 0
  {
    if percents != [] {
      FloorsNonNegative(capacity, percents[1..]);
      assert capacity as real * percents[0] >= 0.0;
      assert Floors(Shares(capacity, percents))
          == [(capacity as real * percents[0]).Floor] + Floors(Shares(capacity, percents[1..]));
    }
  }

  /** When the percentages sum to 1 the missing units are fewer than the
      types, so every count is the floor of its share or one more, and the
      extra units go to the largest fractional parts, lower index first on
      a tie. */
  lemma ApportionLargestRemainder(capacity: int, percents: seq<real>)
    requires |percents| > 0
    requires capacity >= 0 && SumReal(percents) == 1.0
    ensures var r := Apportion(capacity, percents);
      var floors := Floors(Shares(capacity, percents));
      var fracs := Fractions(Shares(capacity, percents));
      && (forall k :: 0 <= k < |r| ==> r[k] == floors[k] || r[k] == floors[k] + 1)
      && (forall j, k :: 0 <= j < |r| && 0 <= k < |r| && r[j] == floors[j] + 1 && r[k] == floors[k]
            ==> Precedes(fracs, j, k))
  {
    var shares := Shares(capacity, percents);
    var floors := Floors(shares);
    DeficitBelowCount(capacity, percents);
    var fracs := Fractions(shares);
    var order := SortByFraction(fracs, |shares|);
    var deficit: nat := capacity - SumInt(floors);
    assert Apportion(capacity, percents) == Bumped(floors, order, deficit);
    BumpedByOrder(fracs, floors, order, deficit);
  }

  /** When the percentages sum to 1 fewer units are missing than there are
      types. */
  lemma DeficitBelowCount(capacity: int, percents: seq<real>)
    requires capacity >= 0 && SumReal(percents) == 1.0
    ensures 0 <= capacity - SumInt(Floors(Shares(capacity, percents))) < |percents|
  {
    var shares := Shares(capacity, percents);
    SharesSum(capacity, percents);
    FloorsPlusFractions(shares);
    assert SumReal(shares) == capacity as real;
    var f := SumInt(Floors(shares));
    assert 0.0 <= capacity as real - f as real < |percents| as real;
  }

  /** Fewer rounds than indices over a full sorted order: each index gains at
      most one unit, and every index that gains precedes every index that
      does not. */
  lemma BumpedByOrder(fracs: seq<real>, floors: seq<int>, order: seq<nat>, count: nat)
    requires |order| == |floors| == |fracs| > 0
    requires forall x :: x in order <==> 0 <= x < |order|
    requires forall p :: 0 <= p < |order| ==> order[p] < |floors|
    requires SortedByFraction(fracs, order)
    requires count <= |order|
    ensures var r := Bumped(floors, order, count);
      && (forall k :: 0 <= k < |r| ==> r[k] == floors[k] || r[k] == floors[k] + 1)
      && (forall j, k :: 0 <= j < |r| && 0 <= k < |r| && r[j] == floors[j] + 1 && r[k] == floors[k]
            ==> Precedes(fracs, j, k))
  {
    BumpedFew(fracs, floors, order, count);
    var r := Bumped(floors, order, count);
    forall j, k | 0 <= j < |r| && 0 <= k < |r| && r[j] == floors[j] + 1 && r[k] == floors[k]
      ensures Precedes(fracs, j, k)
    {
      assert j in order[..count] && k !in order[..count];
      var p :| 0 <= p < count && order[p] == j;
      assert k in order;
      var q :| 0 <= q < |order| && order[q] == k;
      assert q >= count;
    }
  }

  /** The worked example: 10 units at 34% / 33% / 33% give 4 / 3 / 3. */
  lemma ApportionExample()
    ensures Apportion(10, [0.34, 0.33, 0.33]) == [4, 3, 3]
  {
    var percents := [0.34, 0.33, 0.33];
    var shares := Shares(10, percents);
    ExampleShares(percents, shares);
    ExampleFloors(shares);
    var fracs := Fractions(shares);
    ExampleOrder(fracs);
    var floors := Floors(shares);
    SumIntOfThree(floors);
    assert Apportion(10, percents) == Bumped(floors, [0, 1, 2], 1);
    assert Bumped(floors, [0, 1, 2], 1) == [4, 3, 3];
  }

  lemma ExampleShares(percents: seq<real>, shares: seq<real>)
    requires percents == [0.34, 0.33, 0.33] && shares == Shares(10, percents)
    ensures shares == [3.4, 3.3, 3.3]
  {
    assert Shares(10, percents[2..]) == [3.3];
    assert Shares(10, percents[1..]) == [3.3, 3.3];
  }

  lemma ExampleFloors(shares: seq<real>)
    requires shares == [3.4, 3.3, 3.3]
    ensures Floors(shares) == [3, 3, 3]
    ensures Fractions(shares) == [0.4, 0.3, 0.3]
  {
    assert Floors(shares[2..]) == [3];
    assert Floors(shares[1..]) == [3, 3];
    assert Fractions(shares[2..]) == [0.3];
    assert Fractions(shares[1..]) == [0.3, 0.3];
  }

  lemma ExampleOrder(fracs: seq<real>)
    requires fracs == [0.4, 0.3, 0.3]
    ensures SortByFraction(fracs, 3) == [0, 1, 2]
  {
    assert SortByFraction(fracs, 0) == [];
    assert SortByFraction(fracs, 1) == InsertByFraction(fracs, 0, []) == [0];
    assert SortByFraction(fracs, 2) == InsertByFraction(fracs, 1, [0]) == [0, 1];
    assert InsertByFraction(fracs, 2, [0, 1]) == [0, 1, 2] by {
      assert !Precedes(fracs, 2, 0) && !Precedes(fracs, 2, 1);
      assert InsertByFraction(fracs, 2, [1]) == [1, 2];
    }
  }

  // ---------------------------------------------------------------------
  // render: totals, coverage, percentages and the plan rows
  // ---------------------------------------------------------------------

  /** One row of the plan table. */
  datatype Row = Row(capacity: int, infantry: int, cavalry: int, archers: int, unfilled: int)

  function RowTotal(r: Row): int { r.infantry + r.cavalry + r.archers + r.unfilled }

  /** The row of one joining rally repeated n times. */
  function ScaleRow(r: Row, n: int): (scaled: Row)
    ensures scaled.capacity == r.capacity * n
    ensures RowTotal(scaled) == RowTotal(r) * n
  {
    Row(r.capacity * n, r.infantry * n, r.cavalry * n, r.archers * n, r.unfilled * n)
  }

  function AddRows(a: Row, b: Row): Row
  {
    Row(a.capacity + b.capacity, a.infantry + b.infantry, a.cavalry + b.cavalry,
        a.archers + b.archers, a.unfilled + b.unfilled)
  }

  lemma ScaleRowTotal(r: Row, n: int)
    ensures RowTotal(ScaleRow(r, n)) == RowTotal(r) * n
  {
  }

  /** The troop mix over all rallies together. */
  datatype Mix = Mix(
    archersUsed: int,
    cavalryUsed: real,
    infantryUsed: real,
    totalUsed: real,
    coverage: real,
    percentInfantry: real,
    percentCavalry: real,
    percentArcher: real)

  /** Share of the deployed troops (0 when nothing is deployed). */
  function PercentOf(used: real, totalUsed: real): real
  {
    if totalUsed > 0.0 then used / totalUsed else 0.0
  }

  /** Archers first, up to the total capacity; the rest split between cavalry
      and infantry; coverage is the deployed fraction of the capacity. */
  function Deploy(infantry: nat, cavalry: nat, archers: nat, totalCapacity: nat): (m: Mix)
    ensures 0 <= m.archersUsed <= archers
    ensures m.totalUsed == RMin(totalCapacity as real, (infantry + cavalry + archers) as real)
  {
    var archersUsed := Min(archers, totalCapacity);
    var remaining := Max(totalCapacity - archersUsed, 0);
    var split := SplitRemaining(remaining, cavalry, infantry);
    var totalUsed := RMin(totalCapacity as real, archersUsed as real + split.cavalry + split.infantry);
    var coverage := if totalCapacity > 0 then totalUsed / totalCapacity as real else 0.0;
    Mix(archersUsed, split.cavalry, split.infantry, totalUsed, coverage,
        PercentOf(split.infantry, totalUsed), PercentOf(split.cavalry, totalUsed),
        PercentOf(archersUsed as real, totalUsed))
  }

  function Percents(m: Mix): seq<real>
  {
    [m.percentInfantry, m.percentCavalry, m.percentArcher]
  }

  /** What is deployed: never more troops of a type than available, never more
      than the capacity, nothing wasted while troops remain, and archers
      first — with archers enough for the whole capacity, no cavalry or
      infantry goes out. */
  lemma DeployProperties(infantry: nat, cavalry: nat, archers: nat, totalCapacity: nat)
    ensures var m := Deploy(infantry, cavalry, archers, totalCapacity);
      && 0 <= m.archersUsed <= archers
      && 0.0 <= m.cavalryUsed <= cavalry as real
      && 0.0 <= m.infantryUsed <= infantry as real
      && m.totalUsed == m.archersUsed as real + m.cavalryUsed + m.infantryUsed
      && m.totalUsed == RMin(totalCapacity as real, (infantry + cavalry + archers) as real)
      && (archers >= totalCapacity ==>
            m.archersUsed == totalCapacity && m.cavalryUsed == 0.0 && m.infantryUsed == 0.0)
  {
    var archersUsed := Min(archers, totalCapacity);
    SplitRemainingProperties(Max(totalCapacity - archersUsed, 0), cavalry, infantry);
  }

  lemma DivisionSum(a: real, b: real, c: real, t: real)
    requires t > 0.0 && t == a + b + c
    ensures a / t + b / t + c / t == 1.0
  {
    assert a / t + b / t + c / t == (a + b + c) / t;
  }

  lemma DivisionBounds(a: real, t: real)
    requires 0.0 <= a <= t && t > 0.0
    ensures 0.0 <= a / t <= 1.0
  {
    assert a / t * t == a;
  }

  /** Coverage lies in [0, 1]; the three percentages lie in [0, 1] and sum to
      1 when something is deployed, and are all 0 otherwise. */
  lemma DeployShares(infantry: nat, cavalry: nat, archers: nat, totalCapacity: nat)
    ensures var m := Deploy(infantry, cavalry, archers, totalCapacity);
      && 0.0 <= m.coverage <= 1.0
      && 0.0 <= m.percentInfantry <= 1.0 && 0.0 <= m.percentCavalry <= 1.0 && 0.0 <= m.percentArcher <= 1.0
      && m.totalUsed >= 0.0
      && (m.totalUsed > 0.0 ==> m.percentInfantry + m.percentCavalry + m.percentArcher == 1.0)
      && (m.totalUsed == 0.0 ==> m.percentInfantry == m.percentCavalry == m.percentArcher == 0.0)
  {
    var m := Deploy(infantry, cavalry, archers, totalCapacity);
    DeployProperties(infantry, cavalry, archers, totalCapacity);
    if m.totalUsed > 0.0 {
      DivisionSum(m.infantryUsed, m.cavalryUsed, m.archersUsed as real, m.totalUsed);
      DivisionBounds(m.infantryUsed, m.totalUsed);
      DivisionBounds(m.cavalryUsed, m.totalUsed);
      DivisionBounds(m.archersUsed as real, m.totalUsed);
    }
    if totalCapacity > 0 {
      DivisionBounds(m.totalUsed, totalCapacity as real);
    }
  }

  /** One rally row: the rally's nominal capacity scaled by the coverage and
      rounded, apportioned over the mix, the rest left unfilled. */
  function RallyRow(capacity: nat, coverage: real, percents: seq<real>): (r: Row)
    requires |percents| == 3
    ensures r.capacity == capacity
    ensures 0.0 <= coverage <= 1.0 && SumReal(percents) <= 1.0 ==> RowTotal(r) == capacity
  {
    var effective := Round(capacity as real * coverage);
    var split := Apportion(effective, percents);
    var row := Row(capacity, split[0], split[1], split[2], Max(capacity - effective, 0));
    if 0.0 <= coverage <= 1.0 && SumReal(percents) <= 1.0 then
      ScaledBelow(capacity, coverage);
      ApportionSum(effective, percents);
      SumIntOfThree(split);
      row
    else
      row
  }

  lemma ScaledBelow(capacity: nat, coverage: real)
    requires 0.0 <= coverage <= 1.0
    ensures 0 <= Round(capacity as real * coverage) <= capacity
  {
    var x := capacity as real * coverage;
    MulAtMostOne(capacity as real, coverage);
    assert 0.0 <= x <= capacity as real;
    var r := Round(x);
    assert -1.0 < r as real < (capacity + 1) as real;
  }

  /** A rally row adds up to its nominal capacity: troops of the three types
      plus unfilled slots. */
  lemma RallyRowTotal(capacity: nat, coverage: real, percents: seq<real>)
    requires |percents| == 3 && 0.0 <= coverage <= 1.0
    requires SumReal(percents) <= 1.0
    ensures RowTotal(RallyRow(capacity, coverage, percents)) == capacity
  {
    var effective := Round(capacity as real * coverage);
    ScaledBelow(capacity, coverage);
    ApportionSum(effective, percents);
    SumIntOfThree(Apportion(effective, percents));
  }

  /** Everything `render` computes from the six inputs. */
  datatype Plan = Plan(
    joinCount: nat,
    totalCapacity: nat,
    mix: Mix,
    bear: Row,
    joinEach: Row,
    joinTotal: Row,
    grand: Row)

  /** The rows of a plan once the mix is known: each rally's row scaled by
      the coverage, the joining row times the number of joining rallies,
      and their sum. */
  function PlanFromMix(bearCapacity: nat, joinCapacity: nat, joinCount: nat, totalCapacity: nat, mix: Mix): (p: Plan)
    ensures p.joinCount == joinCount && p.totalCapacity == totalCapacity && p.mix == mix
  {
    var bear := RallyRow(bearCapacity, mix.coverage, Percents(mix));
    var join := RallyRow(joinCapacity, mix.coverage, Percents(mix));
    var joinTotal := ScaleRow(join, joinCount);
    Plan(joinCount, totalCapacity, mix, bear, join, joinTotal, AddRows(bear, joinTotal))
  }

  /** render's arithmetic, from the parseInt results of the six inputs (None
      for NaN). */
  function ComputePlan(infantryIn: Option<int>, cavalryIn: Option<int>, archersIn: Option<int>,
                       bearCapacityIn: Option<int>, joinCapacityIn: Option<int>, joinCountIn: Option<int>): (p: Plan)
    ensures p.joinCount <= 6
    ensures joinCountIn.Some? && 0 <= joinCountIn.value <= 6 ==> p.joinCount == joinCountIn.value
    ensures p.totalCapacity == ParseNumber(bearCapacityIn) + ParseNumber(joinCapacityIn) * p.joinCount
    ensures p.joinCount == Clamp(ParseNumber(joinCountIn), 0, 6)
  {
    var joinCount: nat := Clamp(ParseNumber(joinCountIn), 0, 6);
    var bearCapacity := ParseNumber(bearCapacityIn);
    var joinCapacity := ParseNumber(joinCapacityIn);
    var totalCapacity := bearCapacity + joinCapacity * joinCount;
    var mix := Deploy(ParseNumber(infantryIn), ParseNumber(cavalryIn), ParseNumber(archersIn), totalCapacity);
    var p := PlanFromMix(bearCapacity, joinCapacity, joinCount, totalCapacity, mix);
    assert p.joinCount == joinCount && p.totalCapacity == totalCapacity;
    p
  }

  /** The pieces of a plan: the clamped join count, the total capacity, the
      mix over it and the rows built from that mix. */
  lemma PlanParts(infantryIn: Option<int>, cavalryIn: Option<int>, archersIn: Option<int>,
                  bearCapacityIn: Option<int>, joinCapacityIn: Option<int>, joinCountIn: Option<int>)
    ensures var p := ComputePlan(infantryIn, cavalryIn, archersIn, bearCapacityIn, joinCapacityIn, joinCountIn);
      && p.joinCount == Clamp(ParseNumber(joinCountIn), 0, 6)
      && p.totalCapacity == ParseNumber(bearCapacityIn) + ParseNumber(joinCapacityIn) * p.joinCount
      && p.mix == Deploy(ParseNumber(infantryIn), ParseNumber(cavalryIn), ParseNumber(archersIn), p.totalCapacity)
      && p == PlanFromMix(ParseNumber(bearCapacityIn), ParseNumber(joinCapacityIn), p.joinCount, p.totalCapacity, p.mix)
  {
  }

  /** The fields PlanFromMix copies from its arguments. */
  lemma PlanFromMixFields(bearCapacity: nat, joinCapacity: nat, joinCount: nat, totalCapacity: nat, mix: Mix)
    ensures var p := PlanFromMix(bearCapacity, joinCapacity, joinCount, totalCapacity, mix);
      && p.joinCount == joinCount && p.totalCapacity == totalCapacity && p.mix == mix
      && p.bear.capacity == bearCapacity && p.joinEach.capacity == joinCapacity
  {
  }

  /** The join count is clamped to 0..6 and the total capacity is the lead
      capacity plus one join capacity per joining rally. */
  lemma PlanCapacity(infantryIn: Option<int>, cavalryIn: Option<int>, archersIn: Option<int>,
                     bearCapacityIn: Option<int>, joinCapacityIn: Option<int>, joinCountIn: Option<int>)
    ensures var p := ComputePlan(infantryIn, cavalryIn, archersIn, bearCapacityIn, joinCapacityIn, joinCountIn);
      && p.joinCount <= 6
      && p.joinCount == Clamp(ParseNumber(joinCountIn), 0, 6)
      && (joinCountIn.Some? && 0 <= joinCountIn.value <= 6 ==> p.joinCount == joinCountIn.value)
      && p.totalCapacity == ParseNumber(bearCapacityIn) + ParseNumber(joinCapacityIn) * p.joinCount
      && p.bear.capacity == ParseNumber(bearCapacityIn)
      && p.joinEach.capacity == ParseNumber(joinCapacityIn)
  {
    var p := ComputePlan(infantryIn, cavalryIn, archersIn, bearCapacityIn, joinCapacityIn, joinCountIn);
    PlanParts(infantryIn, cavalryIn, archersIn, bearCapacityIn, joinCapacityIn, joinCountIn);
    PlanFromMixFields(ParseNumber(bearCapacityIn), ParseNumber(joinCapacityIn), p.joinCount, p.totalCapacity, p.mix);
  }

  /** The rows built from one mix conserve capacity, given a coverage in
      [0, 1] and percentages summing to at most 1. */
  lemma RowsConserve(bearCapacity: nat, joinCapacity: nat, joinCount: nat, totalCapacity: nat, m: Mix)
    requires totalCapacity == bearCapacity + joinCapacity * joinCount
    requires 0.0 <= m.coverage <= 1.0
    requires m.percentInfantry + m.percentCavalry + m.percentArcher <= 1.0
    ensures var p := PlanFromMix(bearCapacity, joinCapacity, joinCount, totalCapacity, m);
      && RowTotal(p.bear) == p.bear.capacity
      && RowTotal(p.joinEach) == p.joinEach.capacity
      && RowTotal(p.joinTotal) == p.joinTotal.capacity
      && p.grand.capacity == totalCapacity
      && RowTotal(p.grand) == totalCapacity
  {
    var bear := RallyRow(bearCapacity, m.coverage, Percents(m));
    var join := RallyRow(joinCapacity, m.coverage, Percents(m));
    SumRealOfThree(Percents(m));
    RallyRowTotal(bearCapacity, m.coverage, Percents(m));
    RallyRowTotal(joinCapacity, m.coverage, Percents(m));
    ScaleRowTotal(join, joinCount);
    assert PlanFromMix(bearCapacity, joinCapacity, joinCount, totalCapacity, m)
        == Plan(joinCount, totalCapacity, m, bear, join, ScaleRow(join, joinCount),
                AddRows(bear, ScaleRow(join, joinCount)));
  }

  /** Archers first: when there are at least as many archers as capacity,
      archers fill all of it and no cavalry or infantry is deployed; in every
      case no type is deployed beyond what is available and the deployed
      total is the smaller of capacity and troops. */
  lemma PlanDeployment(infantryIn: Option<int>, cavalryIn: Option<int>, archersIn: Option<int>,
                       bearCapacityIn: Option<int>, joinCapacityIn: Option<int>, joinCountIn: Option<int>)
    ensures var p := ComputePlan(infantryIn, cavalryIn, archersIn, bearCapacityIn, joinCapacityIn, joinCountIn);
      var inf, cav, arch := ParseNumber(infantryIn), ParseNumber(cavalryIn), ParseNumber(archersIn);
      && 0 <= p.mix.archersUsed <= arch
      && 0.0 <= p.mix.cavalryUsed <= cav as real
      && 0.0 <= p.mix.infantryUsed <= inf as real
      && p.mix.totalUsed == RMin(p.totalCapacity as real, (inf + cav + arch) as real)
      && (arch >= p.totalCapacity ==>
            p.mix.archersUsed == p.totalCapacity && p.mix.cavalryUsed == 0.0 && p.mix.infantryUsed == 0.0)
  {
    var p := ComputePlan(infantryIn, cavalryIn, archersIn, bearCapacityIn, joinCapacityIn, joinCountIn);
    PlanParts(infantryIn, cavalryIn, archersIn, bearCapacityIn, joinCapacityIn, joinCountIn);
    DeployProperties(ParseNumber(infantryIn), ParseNumber(cavalryIn), ParseNumber(archersIn), p.totalCapacity);
  }

  /** Coverage of the plan lies in [0, 1] and its three percentages sum to 1
      when anything is deployed, and are all 0 otherwise. */
  lemma PlanShares(infantryIn: Option<int>, cavalryIn: Option<int>, archersIn: Option<int>,
                   bearCapacityIn: Option<int>, joinCapacityIn: Option<int>, joinCountIn: Option<int>)
    ensures var m := ComputePlan(infantryIn, cavalryIn, archersIn, bearCapacityIn, joinCapacityIn, joinCountIn).mix;
      && 0.0 <= m.coverage <= 1.0
      && 0.0 <= m.percentInfantry <= 1.0 && 0.0 <= m.percentCavalry <= 1.0 && 0.0 <= m.percentArcher <= 1.0
      && (m.totalUsed > 0.0 ==> m.percentInfantry + m.percentCavalry + m.percentArcher == 1.0)
      && (m.totalUsed == 0.0 ==> m.percentInfantry == m.percentCavalry == m.percentArcher == 0.0)
  {
    var p := ComputePlan(infantryIn, cavalryIn, archersIn, bearCapacityIn, joinCapacityIn, joinCountIn);
    PlanParts(infantryIn, cavalryIn, archersIn, bearCapacityIn, joinCapacityIn, joinCountIn);
    DeployShares(ParseNumber(infantryIn), ParseNumber(cavalryIn), ParseNumber(archersIn), p.totalCapacity);
  }

  /** Conservation: the lead row adds up to the lead capacity, the row of
      each joining rally to the join capacity, and the grand total of
      infantry, cavalry, archers and unfilled slots to the total capacity. */
  lemma PlanConservation(infantryIn: Option<int>, cavalryIn: Option<int>, archersIn: Option<int>,
                         bearCapacityIn: Option<int>, joinCapacityIn: Option<int>, joinCountIn: Option<int>)
    ensures var p := ComputePlan(infantryIn, cavalryIn, archersIn, bearCapacityIn, joinCapacityIn, joinCountIn);
      && RowTotal(p.bear) == p.bear.capacity
      && RowTotal(p.joinEach) == p.joinEach.capacity
      && RowTotal(p.joinTotal) == p.joinTotal.capacity
      && p.grand.capacity == p.totalCapacity
      && RowTotal(p.grand) == p.totalCapacity
  {
    var p := ComputePlan(infantryIn, cavalryIn, archersIn, bearCapacityIn, joinCapacityIn, joinCountIn);
    PlanParts(infantryIn, cavalryIn, archersIn, bearCapacityIn, joinCapacityIn, joinCountIn);
    DeployShares(ParseNumber(infantryIn), ParseNumber(cavalryIn), ParseNumber(archersIn), p.totalCapacity);
    assert p.mix.percentInfantry + p.mix.percentCavalry + p.mix.percentArcher <= 1.0;
    RowsConserve(ParseNumber(bearCapacityIn), ParseNumber(joinCapacityIn), p.joinCount, p.totalCapacity, p.mix);
  }
}
