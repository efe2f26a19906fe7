/** A Fenwick tree over stakes: built in one pass, points removed, and an index found by weight in one descent. */
module FenwickTree {
  import opened Integers

  // ---------------------------------------------------------------------------------------------
  // Low bits
  // ---------------------------------------------------------------------------------------------

  predicate IsPow2(t: nat) {
    t == 1 || (t > 1 && t % 2 == 0 && IsPow2(t / 2))
  }

  /** The lowest set bit of i, which the code writes `i & (-i)`. */
  function LowBit(i: nat): (b: nat)
    requires i > 0
    ensures 1 <= b <= i && IsPow2(b)
  {
    if i % 2 == 1 then 1 else 2 * LowBit(i / 2)
  }

  lemma {:induction false} DistinctPowersAreFarApart(t: nat, u: nat)
    requires IsPow2(t) && IsPow2(u) && t < u
    ensures 2 * t <= u
  {
    if t > 1 {
      DistinctPowersAreFarApart(t / 2, u / 2);
    }
  }

  lemma {:induction false} LowBitOfSum(i: nat, u: nat)
    requires i > 0 && 0 < u < LowBit(i)
    ensures LowBit(i + u) == LowBit(u)
  {
    assert i % 2 == 0;
    if u % 2 == 0 {
      LowBitOfSum(i / 2, u / 2);
      assert (i + u) / 2 == i / 2 + u / 2;
    }
  }

  lemma {:induction false} LowBitBelow(j: nat, t: nat)
    requires j > 0 && IsPow2(t) && t < LowBit(j)
    ensures t < j && LowBit(j - t) == t
  {
    assert j % 2 == 0;
    if t > 1 {
      LowBitBelow(j / 2, t / 2);
      assert (j - t) / 2 == j / 2 - t / 2;
    }
  }

  lemma {:induction false} ParentHasHigherBit(c: nat)
    requires c > 0
    ensures LowBit(c + LowBit(c)) >= 2 * LowBit(c)
  {
    if c % 2 == 0 {
      ParentHasHigherBit(c / 2);
      assert (c + LowBit(c)) / 2 == c / 2 + LowBit(c / 2);
    }
  }

  /** For a power of two m: pos is a multiple of m. */
  predicate Aligned(pos: nat, m: nat) {
    m <= 1 || (pos % 2 == 0 && Aligned(pos / 2, m / 2))
  }

  lemma {:induction false} ZeroAligned(m: nat)
    ensures Aligned(0, m)
  {
    if m > 1 {
      ZeroAligned(m / 2);
    }
  }

  lemma {:induction false} LowBitOfAligned(pos: nat, m: nat)
    requires IsPow2(m) && Aligned(pos, 2 * m)
    ensures LowBit(pos + m) == m
  {
    if m > 1 {
      assert m == 2 * (m / 2);
      LowBitOfAligned(pos / 2, m / 2);
      assert (pos + m) / 2 == pos / 2 + m / 2;
    }
  }

  lemma {:induction false} NextAligned(pos: nat, m: nat)
    requires IsPow2(m) && Aligned(pos, 2 * m)
    ensures Aligned(pos, m) && Aligned(pos + m, m)
  {
    if m > 1 {
      assert m == 2 * (m / 2);
      NextAligned(pos / 2, m / 2);
      assert (pos + m) / 2 == pos / 2 + m / 2;
    }
  }

  // ---------------------------------------------------------------------------------------------
  // Sums of weights
  // ---------------------------------------------------------------------------------------------

  /** The sum of weights at positions lo, ..., hi - 1. */
  function Sum(w: seq<nat>, lo: nat, hi: nat): nat
    requires lo <= hi <= |w|
  {
    if lo == hi then 0 else Sum(w, lo, hi - 1) + w[hi - 1]
  }

  function Weights(stakes: seq<uint64>): (w: seq<nat>)
    ensures |w| == |stakes|
  {
    seq(|stakes|, i requires 0 <= i < |stakes| => stakes[i] as nat)
  }

  function Total(w: seq<nat>): nat {
    Sum(w, 0, |w|)
  }

  /** What tree node j stands for: the sum over its low-bit range. */
  function Range(w: seq<nat>, j: nat): nat
    requires 0 < j <= |w|
  {
    Sum(w, j - LowBit(j), j)
  }

  lemma {:induction false} SumSplits(w: seq<nat>, lo: nat, mid: nat, hi: nat)
    requires lo <= mid <= hi <= |w|
    ensures Sum(w, lo, hi) == Sum(w, lo, mid) + Sum(w, mid, hi)
  {
    if mid < hi {
      SumSplits(w, lo, mid, hi - 1);
    }
  }

  lemma SumWithinTotal(w: seq<nat>, lo: nat, hi: nat)
    requires lo <= hi <= |w|
    ensures Sum(w, lo, hi) <= Total(w)
  {
    SumSplits(w, 0, lo, |w|);
    SumSplits(w, lo, hi, |w|);
  }

  lemma {:induction false} SumAfterUpdate(w: seq<nat>, idx: nat, value: nat, lo: nat, hi: nat)
    requires lo <= hi <= |w| && idx < |w|
    ensures Sum(w[idx := value], lo, hi) == if lo <= idx < hi then Sum(w, lo, hi) - w[idx] + value else Sum(w, lo, hi)
    ensures lo <= idx < hi ==> Sum(w, lo, hi) >= w[idx]
  {
    if lo < hi {
      SumAfterUpdate(w, idx, value, lo, hi - 1);
    }
  }

  // ---------------------------------------------------------------------------------------------
  // One pass builds every node
  // ---------------------------------------------------------------------------------------------

  /** The sum of the ranges of those nodes below i that the build pass adds into node j. */
  function ChildSum(w: seq<nat>, j: nat, i: nat): nat
    requires 0 < i <= |w| + 1
  {
    if i == 1 then 0
    else ChildSum(w, j, i - 1) + if i - 1 + LowBit(i - 1) == j then Range(w, i - 1) else 0
  }

  lemma {:induction false} NoChildBetween(w: seq<nat>, j: nat, lo: nat, hi: nat)
    requires 0 < lo <= hi <= |w| + 1
    requires forall c | lo <= c < hi :: c + LowBit(c) != j
    ensures ChildSum(w, j, hi) == ChildSum(w, j, lo)
  {
    if lo < hi {
      NoChildBetween(w, j, lo, hi - 1);
    }
  }

  lemma NotAChildBelow(j: nat, low: nat, c: nat)
    requires 0 < c && 0 < j && low == LowBit(j) && c <= j - low
    ensures c + LowBit(c) != j
  {
    ParentHasHigherBit(c);
  }

  lemma NoChildBelowRange(w: seq<nat>, j: nat, low: nat)
    requires 0 < j <= |w| && low == LowBit(j)
    ensures ChildSum(w, j, j - low + 1) == 0
  {
    forall c | 1 <= c < j - low + 1
      ensures c + LowBit(c) != j
    {
      NotAChildBelow(j, low, c);
    }
    NoChildBetween(w, j, 1, j - low + 1);
  }

  lemma NotAChild(j: nat, t: nat, c: nat)
    requires 0 < c && IsPow2(t) && t < j - c < 2 * t
    ensures c + LowBit(c) != j
  {
    if c + LowBit(c) == j {
      DistinctPowersAreFarApart(t, LowBit(c));
    }
  }

  lemma NoChildInside(w: seq<nat>, j: nat, t: nat)
    requires IsPow2(t) && 2 * t <= j <= |w|
    ensures ChildSum(w, j, j - t) == ChildSum(w, j, j - 2 * t + 1)
  {
    forall c | j - 2 * t + 1 <= c < j - t
      ensures c + LowBit(c) != j
    {
      NotAChild(j, t, c);
    }
    NoChildBetween(w, j, j - 2 * t + 1, j - t);
  }

  lemma ChildIsAdded(w: seq<nat>, j: nat, t: nat)
    requires t < j <= |w| && t > 0 && LowBit(j - t) == t
    ensures 2 * t <= j && ChildSum(w, j, j - t + 1) == ChildSum(w, j, j - t) + Sum(w, j - 2 * t, j - t)
  {
  }

  lemma TileOneMore(w: seq<nat>, j: nat, t: nat, low: nat)
    requires 0 < 2 * t <= low <= j <= |w| && IsPow2(t) && low == LowBit(j)
    requires ChildSum(w, j, j - 2 * t + 1) == Sum(w, j - low, j - 2 * t)
    ensures ChildSum(w, j, j - t + 1) == Sum(w, j - low, j - t)
  {
    NoChildInside(w, j, t);
    LowBitBelow(j, t);
    ChildIsAdded(w, j, t);
    SumSplits(w, j - low, j - 2 * t, j - t);
  }

  lemma DoublePow2(t: nat)
    requires IsPow2(t)
    ensures IsPow2(2 * t) && t > 0
  {
  }

  /** The nodes added into j up to j - t tile its range up to j - t. */
  lemma {:induction false} ChildrenTile(w: seq<nat>, j: nat, t: nat, low: nat)
    requires 0 < j <= |w| && low == LowBit(j) && IsPow2(t) && t <= low
    ensures ChildSum(w, j, j - t + 1) == Sum(w, j - low, j - t)
    decreases low - t
  {
    if t == low {
      NoChildBelowRange(w, j, low);
    } else {
      DistinctPowersAreFarApart(t, low);
      DoublePow2(t);
      ChildrenTile(w, j, 2 * t, low);
      TileOneMore(w, j, t, low);
    }
  }

  /** When the pass arrives at node i, everything its range needs has been added. */
  lemma NodeIsComplete(w: seq<nat>, i: nat)
    requires 0 < i <= |w|
    ensures w[i - 1] + ChildSum(w, i, i) == Range(w, i)
  {
    ChildrenTile(w, i, 1, LowBit(i));
  }

  lemma {:induction false} ChildSumMonotone(w: seq<nat>, j: nat, i: nat, i': nat)
    requires 0 < i <= i' <= |w| + 1
    ensures ChildSum(w, j, i) <= ChildSum(w, j, i')
  {
    if i < i' {
      ChildSumMonotone(w, j, i, i' - 1);
    }
  }

  lemma PartialNodeWithinTotal(w: seq<nat>, j: nat, i: nat)
    requires 0 < j <= |w| && 0 < i <= j
    ensures w[j - 1] + ChildSum(w, j, i) <= Total(w)
  {
    ChildSumMonotone(w, j, i, j);
    NodeIsComplete(w, j);
    SumWithinTotal(w, j - LowBit(j), j);
  }

  /** The tree halfway through the pass: nodes below i are complete, the others hold what was added so far. */
  predicate Built(w: seq<nat>, t: seq<uint64>, i: nat) {
    && |t| == |w| + 1 && 1 <= i <= |w| + 1
    && (forall j | 1 <= j < i :: t[j] as int == Range(w, j))
    && (forall j | i <= j <= |w| :: t[j] as int == w[j - 1] + ChildSum(w, j, i))
  }

  lemma BuiltAtStart(stakes: seq<uint64>, t: seq<uint64>)
    requires |t| == |stakes| + 1 && forall j | 1 <= j <= |stakes| :: t[j] == stakes[j - 1]
    ensures Built(Weights(stakes), t, 1)
  {
  }

  lemma BuildStep(w: seq<nat>, t: seq<uint64>, i: nat)
    requires Built(w, t, i) && i <= |w| && Total(w) < LIMIT
    ensures var parent := i + LowBit(i);
            if parent <= |w| then
              t[parent] as int + t[i] as int < LIMIT && Built(w, t[parent := t[parent] + t[i]], i + 1)
            else Built(w, t, i + 1)
  {
    NodeIsComplete(w, i);
    if i + LowBit(i) <= |w| {
      PartialNodeWithinTotal(w, i + LowBit(i), i + 1);
    }
  }

  // ---------------------------------------------------------------------------------------------
  // The update path visits exactly the nodes that cover a position
  // ---------------------------------------------------------------------------------------------

  predicate Covers(j: nat, p: nat)
    requires j > 0
  {
    j - LowBit(j) < p <= j
  }

  lemma NextCoveringNode(i: nat, p: nat)
    requires i > 0 && Covers(i, p)
    ensures Covers(i + LowBit(i), p)
    ensures forall j | i < j < i + LowBit(i) :: !Covers(j, p)
  {
    ParentHasHigherBit(i);
    forall j | i < j < i + LowBit(i)
      ensures !Covers(j, p)
    {
      LowBitOfSum(i, j - i);
    }
  }

  // ---------------------------------------------------------------------------------------------
  // The linear scan that the tree stands for
  // ---------------------------------------------------------------------------------------------

  /** The first position at which the cumulative sum, starting from acc, exceeds r. */
  function LinearScan(w: seq<nat>, r: nat, i: nat, acc: nat): nat
    requires i <= |w|
    decreases |w| - i
  {
    if i == |w| then i
    else if r < acc + w[i] then i
    else LinearScan(w, r, i + 1, acc + w[i])
  }

  /** Index i is where r falls: the cumulative sum passes r at position i. */
  predicate Falls(w: seq<nat>, r: nat, i: nat) {
    i < |w| && Sum(w, 0, i) <= r < Sum(w, 0, i + 1)
  }

  lemma {:induction false} SumMonotone(w: seq<nat>, i: nat, j: nat)
    requires i <= j <= |w|
    ensures Sum(w, 0, i) <= Sum(w, 0, j)
  {
    if i < j {
      SumMonotone(w, i, j - 1);
    }
  }

  lemma FallsUnique(w: seq<nat>, r: nat, i: nat, j: nat)
    requires Falls(w, r, i) && Falls(w, r, j)
    ensures i == j
  {
    if i < j {
      SumMonotone(w, i + 1, j);
    } else if j < i {
      SumMonotone(w, j + 1, i);
    }
  }

  lemma {:induction false} ScanFalls(w: seq<nat>, r: nat, i: nat)
    requires i <= |w| && Sum(w, 0, i) <= r < Total(w)
    ensures Falls(w, r, LinearScan(w, r, i, Sum(w, 0, i)))
    decreases |w| - i
  {
    if i < |w| && Sum(w, 0, i + 1) <= r {
      ScanFalls(w, r, i + 1);
    }
  }

  /** The descent: pos is aligned, r falls at or after it, and below pos + above if that is inside. */
  predicate Descent(w: seq<nat>, r: nat, above: nat, pos: nat, rest: nat) {
    && IsPow2(above) && pos <= |w| && Aligned(pos, above)
    && Sum(w, 0, pos) + rest == r
    && (pos + above <= |w| ==> r < Sum(w, 0, pos + above))
  }

  lemma DescentStep(w: seq<nat>, r: nat, above: nat, pos: nat, rest: nat)
    requires Descent(w, r, above, pos, rest) && above > 1
    ensures var m := above / 2; var next := pos + m;
            && IsPow2(m) && LowBit(next) == m
            && (if next <= |w| && Range(w, next) <= rest then Descent(w, r, m, next, rest - Range(w, next))
                else Descent(w, r, m, pos, rest))
  {
    var m := above / 2;
    LowBitOfAligned(pos, m);
    NextAligned(pos, m);
    if pos + m <= |w| {
      SumSplits(w, 0, pos, pos + m);
    }
  }

  lemma DescentEnds(w: seq<nat>, r: nat, pos: nat, rest: nat)
    requires Descent(w, r, 1, pos, rest)
    ensures r < Total(w) ==> Falls(w, r, pos) && pos == LinearScan(w, r, 0, 0)
    ensures r >= Total(w) ==> pos == |w|
  {
    if r < Total(w) {
      ScanFalls(w, r, 0);
      FallsUnique(w, r, pos, LinearScan(w, r, 0, 0));
    } else if pos < |w| {
      SumMonotone(w, pos + 1, |w|);
    }
  }

  // ---------------------------------------------------------------------------------------------
  // The tree
  // ---------------------------------------------------------------------------------------------

  /** The build pass: every node is added to the next node that covers it. */
  method AddToParents(tree: array<uint64>, ghost w: seq<nat>)
    requires Built(w, tree[..], 1) && Total(w) < LIMIT
    modifies tree
    ensures Built(w, tree[..], tree.Length)
  {
    var i := 1;
    while i < tree.Length
      invariant Built(w, tree[..], i)
    {
      BuildStep(w, tree[..], i);
      var parent := i + LowBit(i);
      if parent < tree.Length {
        tree[parent] := tree[parent] + tree[i];
      }
      i := i + 1;
    }
  }

  class StakeFenwickTree {
    const n: nat
    const tree: array<uint64>
    ghost var weights: seq<nat>

    ghost predicate Valid()
      reads this, tree
    {
      && tree.Length == n + 1 && |weights| == n
      && Total(weights) < LIMIT
      && forall j | 1 <= j <= n :: tree[j] as int == Range(weights, j)
    }

    constructor (stakes: seq<uint64>)
      requires Total(Weights(stakes)) < LIMIT
      ensures Valid() && fresh(tree) && n == |stakes| && weights == Weights(stakes)
    {
      n := |stakes|;
      tree := new uint64[|stakes| + 1];
      weights := Weights(stakes);
      new;
      var k := 0;
      while k < n
        invariant k <= n && weights == Weights(stakes)
        invariant forall j | 1 <= j <= k :: tree[j] == stakes[j - 1]
      {
        tree[k + 1] := stakes[k];
        k := k + 1;
      }
      BuiltAtStart(stakes, tree[..]);
      AddToParents(tree, weights);
    }

    /** Takes `stake` off position idx. */
    method Remove(idx: nat, stake: uint64)
      requires Valid() && idx < n && stake as int <= weights[idx]
      modifies this, tree
      ensures Valid() && weights == old(weights)[idx := old(weights)[idx] - stake as int]
    {
      var i := idx + 1;
      while i <= n
        invariant i > 0 && Covers(i, idx + 1)
        invariant weights == old(weights) && tree.Length == n + 1 && |weights| == n
        invariant forall j | 1 <= j <= n ::
                    tree[j] as int == Range(weights, j) - if Covers(j, idx + 1) && j < i then stake as int else 0
        decreases n + 1 - i
      {
        SumAfterUpdate(weights, idx, 0, i - LowBit(i), i);
        NextCoveringNode(i, idx + 1);
        tree[i] := tree[i] - stake;
        i := i + LowBit(i);
      }
      var left := weights[idx] - stake as int;
      forall j | 1 <= j <= n
        ensures tree[j] as int == Range(weights[idx := left], j)
      {
        SumAfterUpdate(weights, idx, left, j - LowBit(j), j);
      }
      SumAfterUpdate(weights, idx, left, 0, n);
      weights := weights[idx := left];
    }

    /** The position where r falls, or n when r is not below the total; equal to the linear scan. */
    method FindByWeight(r: uint64) returns (pos: nat)
      requires Valid()
      ensures r as int < Total(weights) ==> Falls(weights, r as int, pos) && pos == LinearScan(weights, r as int, 0, 0)
      ensures r as int >= Total(weights) ==> pos == n
    {
      pos := 0;
      var bitMask: nat := 1;
      while bitMask <= n
        invariant IsPow2(bitMask)
        decreases n + 1 - bitMask
      {
        bitMask := bitMask * 2;
      }
      var rest := r;
      ghost var above: nat := bitMask;
      bitMask := bitMask / 2;
      ZeroAligned(above);
      while bitMask > 0
        invariant Descent(weights, r as int, above, pos, rest as int) && bitMask == above / 2
        decreases bitMask
      {
        DescentStep(weights, r as int, above, pos, rest as int);
        var next := pos + bitMask;
        if next <= n && tree[next] <= rest {
          rest := rest - tree[next];
          pos := next;
        }
        above := bitMask;
        bitMask := bitMask / 2;
      }
      DescentEnds(weights, r as int, pos, rest as int);
    }
  }
}
