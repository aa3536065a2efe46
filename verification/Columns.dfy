/** Column widths (ui/columns.go): fitting preferred widths into the space that is left. */
module Columns {

  function Sum(cols: seq<int>): int {
    if cols == [] then 0 else Sum(cols[..|cols| - 1]) + cols[|cols| - 1]
  }

  lemma {:induction false} SumUpdate(cols: seq<int>, i: nat, v: int)
    requires i < |cols|
    ensures Sum(cols[i := v]) == Sum(cols) - cols[i] + v
  {
    var n := |cols| - 1;
    if i == n {
      assert cols[i := v][..n] == cols[..n];
    } else {
      SumUpdate(cols[..n], i, v);
      assert cols[i := v][..n] == cols[..n][i := v];
    }
  }

  lemma {:induction false} SumAtLeastCount(cols: seq<int>)
    requires forall i :: 0 <= i < |cols| ==> cols[i] >= 1
    ensures Sum(cols) >= |cols|
    ensures Sum(cols) == |cols| ==> forall i :: 0 <= i < |cols| ==> cols[i] == 1
  {
    if cols != [] {
      var init := cols[..|cols| - 1];
      SumAtLeastCount(init);
      assert forall i :: 0 <= i < |init| ==> init[i] == cols[i];
    }
  }

  lemma {:induction false} SumBelow(x: seq<int>, y: seq<int>)
    requires |x| == |y| && Sum(x) == Sum(y)
    requires forall i :: 0 <= i < |x| ==> x[i] <= y[i]
    ensures x == y
  {
    if x != [] {
      SumMonotone(x[..|x| - 1], y[..|x| - 1]);
      SumBelow(x[..|x| - 1], y[..|x| - 1]);
      assert x == x[..|x| - 1] + [x[|x| - 1]] && y == y[..|x| - 1] + [y[|x| - 1]];
    }
  }

  lemma {:induction false} SumMonotone(x: seq<int>, y: seq<int>)
    requires |x| == |y|
    requires forall i :: 0 <= i < |x| ==> x[i] <= y[i]
    ensures Sum(x) <= Sum(y)
  {
    if x != [] {
      SumMonotone(x[..|x| - 1], y[..|x| - 1]);
    }
  }

  /* Every flexible index names a column. */
  ghost predicate FlexInRange(cols: seq<int>, flex: seq<int>) {
    forall p :: 0 <= p < |flex| ==> 0 <= flex[p] < |cols|
  }

  /* Position q is where flex first names its column. */
  ghost predicate First(flex: seq<int>, q: nat)
    requires q < |flex|
  {
    forall k :: 0 <= k < q ==> flex[k] != flex[q]
  }

  /* Had the column at q been cut, the one at p is at most one wider, and no wider at all when flex
     names it earlier. */
  ghost predicate Level(cols: seq<int>, flex: seq<int>, now: seq<int>, p: nat, q: nat)
    requires FlexInRange(cols, flex) && |now| == |cols| && p < |flex| && q < |flex|
  {
    now[flex[q]] < cols[flex[q]] && First(flex, q) ==>
      now[flex[p]] <= now[flex[q]] + if p < q then 0 else 1
  }

  /* now is cols with some flexible columns narrowed, levelled off from the widest down, of
     equally wide ones the earlier in flex giving way first. Nothing is cut below 1. */
  ghost predicate Levelled(cols: seq<int>, flex: seq<int>, now: seq<int>)
    requires FlexInRange(cols, flex)
  {
    && |now| == |cols|
    && (forall i :: 0 <= i < |cols| ==> now[i] <= cols[i])
    && (forall i :: 0 <= i < |cols| && i !in flex ==> now[i] == cols[i])
    && (forall i :: 0 <= i < |cols| && now[i] < cols[i] ==> now[i] >= 1)
    && (forall p, q :: 0 <= p < |flex| && 0 <= q < |flex| ==> Level(cols, flex, now, p, q))
  }

  lemma {:induction false} FirstPosition(flex: seq<int>, i: int) returns (q: nat)
    requires i in flex
    ensures q < |flex| && flex[q] == i && First(flex, q)
  {
    if flex[0] == i {
      q := 0;
    } else {
      var r := FirstPosition(flex[1..], i);
      q := r + 1;
      forall k | 0 <= k < q ensures flex[k] != flex[q] {
        if k > 0 { assert flex[k] == flex[1..][k - 1]; }
      }
    }
  }

  lemma NoCrossing(cols: seq<int>, flex: seq<int>, x: seq<int>, y: seq<int>, i: nat, j: nat)
    requires FlexInRange(cols, flex) && i < |cols| && j < |cols|
    requires Levelled(cols, flex, x) && Levelled(cols, flex, y)
    ensures x[i] < y[i] ==> x[j] <= y[j]
  {
    if x[i] < y[i] && i in flex && j in flex {
      var p := FirstPosition(flex, i);
      var q := FirstPosition(flex, j);
      assert Level(cols, flex, x, q, p) && Level(cols, flex, y, p, q);
    }
  }

  /* Levelling leaves no choice: one total width, one result. */
  lemma LevelledUnique(cols: seq<int>, flex: seq<int>, x: seq<int>, y: seq<int>)
    requires FlexInRange(cols, flex)
    requires Levelled(cols, flex, x) && Levelled(cols, flex, y) && Sum(x) == Sum(y)
    ensures x == y
  {
    if x != y {
      var i := SomeSmaller(x, y);
      var j := SomeSmaller(y, x);
      NoCrossing(cols, flex, x, y, i, j);
    }
  }

  lemma SomeSmaller(x: seq<int>, y: seq<int>) returns (i: nat)
    requires |x| == |y| && Sum(x) == Sum(y) && x != y
    ensures i < |x| && x[i] < y[i]
  {
    if forall i :: 0 <= i < |x| ==> y[i] <= x[i] {
      SumBelow(y, x);
    }
    i :| 0 <= i < |x| && x[i] < y[i];
  }

  /* What the widths come out as. */
  ghost predicate Distributed(available: int, cols: seq<int>, flex: seq<int>, r: seq<int>)
    requires FlexInRange(cols, flex) && cols != []
  {
    && |r| == |cols|
    && (Sum(cols) <= available ==>
          var taker := if flex == [] then |cols| - 1 else flex[0];
          r == cols[taker := cols[taker] + available - Sum(cols)])
    && (Sum(cols) > available ==>
          exists mid :: Shrunk(available, cols, flex, mid) && LastResort(available, mid, r))
  }

  /* Levelled as far as needed, or until every flexible column is down to 1. */
  ghost predicate Shrunk(available: int, cols: seq<int>, flex: seq<int>, mid: seq<int>)
    requires FlexInRange(cols, flex)
  {
    && Levelled(cols, flex, mid)
    && Sum(mid) >= available
    && (Sum(mid) > available ==> forall p :: 0 <= p < |flex| ==> mid[flex[p]] <= 1)
  }

  /* Then from the left, each column down to 1 before the next is touched. */
  ghost predicate LastResort(available: int, mid: seq<int>, r: seq<int>) {
    && |r| == |mid|
    && Sum(r) >= available
    && (exists n :: 0 <= n <= |mid| && Squeezed(mid, r, n) && (n == |mid| || Sum(r) == available))
  }

  ghost predicate Squeezed(mid: seq<int>, r: seq<int>, n: nat)
    requires |r| == |mid| && n <= |mid|
  {
    && (forall i :: 0 <= i < n ==> r[i] == if mid[i] > 1 then 1 else mid[i])
    && (n < |mid| ==> (if mid[n] > 1 then 1 <= r[n] <= mid[n] else r[n] == mid[n]))
    && (forall i :: n < i < |mid| ==> r[i] == mid[i])
  }

  method DistributeColumns(totalWidth: int, gapCount: int, gapWidth: int, cols: seq<int>, flexIndices: seq<int>)
      returns (r: seq<int>)
    requires FlexInRange(cols, flexIndices)
    requires cols == [] ==> totalWidth <= 0 || totalWidth <= gapCount * gapWidth
    ensures totalWidth <= 0 ==> r == cols
    ensures 0 < totalWidth <= gapCount * gapWidth ==>
              |r| == |cols| && forall i :: 0 <= i < |r| ==> r[i] == if cols[i] <= 0 then 1 else cols[i]
    ensures totalWidth > 0 && totalWidth > gapCount * gapWidth ==>
              Distributed(totalWidth - gapCount * gapWidth, cols, flexIndices, r)
  {
    if totalWidth <= 0 {
      return cols;
    }
    var adjusted := cols;
    var totalGaps := gapCount * gapWidth;
    var available := totalWidth - totalGaps;
    if available <= 0 {
      for i := 0 to |adjusted|
        invariant |adjusted| == |cols|
        invariant forall k :: 0 <= k < i ==> adjusted[k] == if cols[k] <= 0 then 1 else cols[k]
        invariant forall k :: i <= k < |cols| ==> adjusted[k] == cols[k]
      {
        if adjusted[i] <= 0 {
          adjusted := adjusted[i := 1];
        }
      }
      return adjusted;
    }
    var sum := 0;
    for i := 0 to |adjusted|
      invariant sum == Sum(adjusted[..i])
    {
      assert adjusted[..i + 1][..i] == adjusted[..i];
      sum := sum + adjusted[i];
    }
    assert adjusted[..|adjusted|] == adjusted;
    if sum == available {
      return adjusted;
    }
    if sum < available {
      var remaining := available - sum;
      if |flexIndices| == 0 {
        return adjusted[|adjusted| - 1 := adjusted[|adjusted| - 1] + remaining];
      }
      return adjusted[flexIndices[0] := adjusted[flexIndices[0]] + remaining];
    }
    adjusted, sum := ShrinkFlexible(available, cols, flexIndices, sum);
    r := SqueezeAll(available, adjusted, sum);
  }

  /* Cutting the first of the widest flexible columns keeps them level. */
  lemma CutKeepsLevel(cols: seq<int>, flex: seq<int>, now: seq<int>, at: nat)
    requires FlexInRange(cols, flex) && at < |flex| && Levelled(cols, flex, now)
    requires now[flex[at]] > 1
    requires forall k :: 0 <= k < |flex| ==> now[flex[k]] <= now[flex[at]]
    requires forall k :: 0 <= k < at ==> now[flex[k]] < now[flex[at]]
    ensures Levelled(cols, flex, now[flex[at] := now[flex[at]] - 1])
  {
    var next := now[flex[at] := now[flex[at]] - 1];
    forall p, q | 0 <= p < |flex| && 0 <= q < |flex| ensures Level(cols, flex, next, p, q) {
      assert Level(cols, flex, now, p, q);
    }
  }

  /* The widest flexible column gives way, one cell at a time. */
  method ShrinkFlexible(available: int, cols: seq<int>, flex: seq<int>, total: int)
    returns (adjusted: seq<int>, sum: int)
    requires FlexInRange(cols, flex) && total == Sum(cols) > available
    ensures Shrunk(available, cols, flex, adjusted) && sum == Sum(adjusted)
  {
    adjusted, sum := cols, total;
    while sum > available && |flex| > 0
      invariant Levelled(cols, flex, adjusted)
      invariant sum == Sum(adjusted) >= available
      decreases sum - available
    {
      var largestIdx, largestVal := -1, -1;
      ghost var at := 0;
      for p := 0 to |flex|
        invariant largestVal >= -1
        invariant forall k :: 0 <= k < p ==> adjusted[flex[k]] <= largestVal
        invariant largestIdx == -1 <==> largestVal == -1
        invariant largestVal > -1 ==>
                    0 <= at < p && largestIdx == flex[at] && adjusted[largestIdx] == largestVal
        invariant largestVal > -1 ==> forall k :: 0 <= k < at ==> adjusted[flex[k]] < largestVal
      {
        if adjusted[flex[p]] > largestVal {
          largestVal := adjusted[flex[p]];
          largestIdx := flex[p];
          at := p;
        }
      }
      if largestIdx == -1 || largestVal <= 1 {
        break;
      }
      SumUpdate(adjusted, largestIdx, largestVal - 1);
      CutKeepsLevel(cols, flex, adjusted, at);
      adjusted := adjusted[largestIdx := largestVal - 1];
      sum := sum - 1;
    }
  }

  /* The last resort, which no longer looks at which columns are flexible. */
  method SqueezeAll(available: int, mid: seq<int>, total: int) returns (adjusted: seq<int>)
    requires total == Sum(mid) >= available
    ensures LastResort(available, mid, adjusted)
  {
    adjusted := mid;
    var sum, i := total, 0;
    while sum > available && i < |adjusted|
      invariant |adjusted| == |mid| && 0 <= i <= |mid|
      invariant sum == Sum(adjusted) >= available
      invariant Squeezed(mid, adjusted, i)
      decreases |mid| - i, sum - available
    {
      if adjusted[i] > 1 {
        SumUpdate(adjusted, i, adjusted[i] - 1);
        adjusted := adjusted[i := adjusted[i] - 1];
        sum := sum - 1;
      } else {
        i := i + 1;
      }
    }
  }

  /* With room for at least one cell each, the widths fill the space exactly and none is lost. */
  lemma FitsExactly(available: int, cols: seq<int>, flex: seq<int>, r: seq<int>)
    requires FlexInRange(cols, flex) && cols != [] && Distributed(available, cols, flex, r)
    requires available >= |cols| && forall i :: 0 <= i < |cols| ==> cols[i] >= 1
    ensures Sum(r) == available
    ensures forall i :: 0 <= i < |r| ==> r[i] >= 1
  {
    if Sum(cols) <= available {
      var taker := if flex == [] then |cols| - 1 else flex[0];
      SumUpdate(cols, taker, cols[taker] + available - Sum(cols));
    } else {
      var mid :| Shrunk(available, cols, flex, mid) && LastResort(available, mid, r);
      assert forall i :: 0 <= i < |mid| ==> mid[i] >= 1;
      SqueezedFits(available, mid, r);
    }
  }

  lemma SqueezedFits(available: int, mid: seq<int>, r: seq<int>)
    requires LastResort(available, mid, r) && available >= |mid|
    requires forall i :: 0 <= i < |mid| ==> mid[i] >= 1
    ensures Sum(r) == available
    ensures forall i :: 0 <= i < |r| ==> r[i] >= 1
  {
    var n :| 0 <= n <= |mid| && Squeezed(mid, r, n) && (n == |mid| || Sum(r) == available);
    if n == |mid| {
      AllOnes(r);
    }
  }

  lemma {:induction false} AllOnes(r: seq<int>)
    requires forall i :: 0 <= i < |r| ==> r[i] == 1
    ensures Sum(r) == |r|
  {
    if r != [] {
      AllOnes(r[..|r| - 1]);
    }
  }

  lemma SqueezedBelow(available: int, mid: seq<int>, r: seq<int>)
    requires LastResort(available, mid, r)
    ensures forall i :: 0 <= i < |r| ==> r[i] <= mid[i] && (mid[i] <= 1 ==> r[i] == mid[i])
  {
  }

  /* When something must give, no column grows; the flexible ones level off; and a column that is
     not flexible gives way only once every flexible one is down to 1. */
  lemma ShrinkingLevelsOff(available: int, cols: seq<int>, flex: seq<int>, r: seq<int>, p: nat, q: nat, i: nat)
    requires FlexInRange(cols, flex) && cols != [] && Distributed(available, cols, flex, r)
    requires Sum(cols) > available && p < |flex| && q < |flex| && i < |cols|
    ensures r[i] <= cols[i]
    ensures r[flex[q]] < cols[flex[q]] ==> r[flex[p]] <= r[flex[q]] + 1
    ensures i !in flex && r[i] < cols[i] ==> r[flex[p]] <= 1
  {
    var mid :| Shrunk(available, cols, flex, mid) && LastResort(available, mid, r);
    SqueezedBelow(available, mid, r);
    if Sum(mid) > available {
      assert mid[flex[p]] <= 1 && mid[flex[q]] <= 1;
    } else {
      SumMonotone(r, mid);
      SumBelow(r, mid);
    }
    var q' := FirstPosition(flex, flex[q]);
    assert Level(cols, flex, mid, p, q');
  }
}
