/** Stake-weighted draws without replacement: the quorum, the leader order and the last-mile finalizers of an epoch.

The random number of each round is a function of the round; in the program it is a hash of the seed and the round. */
module StakeSelection {
  import opened FenwickTree
  import opened Integers

  type Key = string

  ghost predicate Distinct<T>(s: seq<T>) {
    forall i, j | 0 <= i < j < |s| :: s[i] != s[j]
  }

  function Min(a: nat, b: nat): nat {
    if a < b then a else b
  }

  // ---------------------------------------------------------------------------------------------
  // The draw as a linear scan
  // ---------------------------------------------------------------------------------------------

  /** From round `round` on: scan for the number's place, take that position out, go on until `count` or
  nothing is left. */
  function Draw(w: seq<nat>, random: nat -> uint64, round: nat, count: nat): seq<nat>
    decreases count - round
  {
    if round >= count || Total(w) == 0 then []
    else
      var i := LinearScan(w, random(round) as nat % Total(w), 0, 0);
      if i < |w| then [i] + Draw(w[i := 0], random, round + 1, count) else []
  }

  /** The positions that still have weight. */
  function Positive(w: seq<nat>): set<nat> {
    set i: nat | i < |w| && w[i] > 0
  }

  lemma {:induction false} SumZeroIffNonePositive(w: seq<nat>, hi: nat)
    requires hi <= |w|
    ensures Sum(w, 0, hi) == 0 <==> forall i | 0 <= i < hi :: w[i] == 0
  {
    if hi > 0 {
      SumZeroIffNonePositive(w, hi - 1);
    }
  }

  lemma TotalZeroIffNonePositive(w: seq<nat>)
    ensures Total(w) == 0 <==> Positive(w) == {}
  {
    SumZeroIffNonePositive(w, |w|);
    if Positive(w) == {} {
      forall i | 0 <= i < |w|
        ensures w[i] == 0
      {
        assert i !in Positive(w);
      }
    }
  }

  lemma PickTakesOneOut(w: seq<nat>, r: nat)
    requires r < Total(w)
    ensures var i := LinearScan(w, r, 0, 0);
            Falls(w, r, i) && i in Positive(w) && Positive(w[i := 0]) == Positive(w) - {i}
            && w[i] <= Total(w) && Total(w[i := 0]) == Total(w) - w[i]
  {
    ScanFalls(w, r, 0);
    var i := LinearScan(w, r, 0, 0);
    assert Sum(w, 0, i + 1) == Sum(w, 0, i) + w[i];
    SumAfterUpdate(w, i, 0, 0, |w|);
  }

  /** No position is drawn twice, each has weight, and the draw stops only at `count` or when no weight is left. */
  lemma {:induction false} DrawIsWithoutReplacement(w: seq<nat>, random: nat -> uint64, round: nat, count: nat)
    requires round <= count
    ensures var picks := Draw(w, random, round, count);
            && Distinct(picks)
            && (forall k | k in picks :: k in Positive(w))
            && |picks| == Min(count - round, |Positive(w)|)
    decreases count - round
  {
    TotalZeroIffNonePositive(w);
    if round < count && Total(w) > 0 {
      PickTakesOneOut(w, random(round) as nat % Total(w));
      var i := LinearScan(w, random(round) as nat % Total(w), 0, 0);
      DrawIsWithoutReplacement(w[i := 0], random, round + 1, count);
      assert |Positive(w)| == |Positive(w) - {i}| + 1;
    }
  }

  lemma {:induction false} DistinctCount<T>(s: seq<T>, elements: set<T>)
    requires Distinct(s) && (forall k | k in s :: k in elements) && |s| >= |elements|
    ensures forall k | k in elements :: k in s
  {
    if s == [] {
      assert elements == {};
    } else {
      var rest, fewer := s[1..], elements - {s[0]};
      assert s[0] in s && s == [s[0]] + rest;
      forall k | k in rest
        ensures k in fewer
      {
        var i :| 0 <= i < |rest| && rest[i] == k;
        assert s[0] != s[i + 1] && s[i + 1] in s;
      }
      assert Distinct(rest) by {
        assert forall i | 0 <= i < |rest| :: rest[i] == s[i + 1];
      }
      DistinctCount(rest, fewer);
    }
  }

  /** With enough rounds every position that has weight is drawn. */
  lemma DrawExhausts(w: seq<nat>, random: nat -> uint64, count: nat)
    requires count >= |Positive(w)|
    ensures forall k | k in Positive(w) :: k in Draw(w, random, 0, count)
  {
    DrawIsWithoutReplacement(w, random, 0, count);
    DistinctCount(Draw(w, random, 0, count), Positive(w));
  }

  /** Every position still has its whole stake or nothing. */
  ghost predicate Remaining(stakes: seq<uint64>, w: seq<nat>) {
    |w| == |stakes| && forall k | 0 <= k < |stakes| :: w[k] == 0 || w[k] == stakes[k] as nat
  }

  /** The loop's state: the remaining stake and the tree's weights agree, and the scan would go on as the loop does. */
  ghost predicate Drawing(
      stakes: seq<uint64>, w: seq<nat>, total: uint64, random: nat -> uint64, round: nat, count: nat, picks: seq<nat>) {
    && |w| == |stakes| && total as int == Total(w)
    && Remaining(stakes, w)
    && picks + Draw(w, random, round, count) == Draw(Weights(stakes), random, 0, count)
  }

  lemma DrawUnfolds(w: seq<nat>, random: nat -> uint64, round: nat, count: nat, i: nat)
    requires round < count && Total(w) > 0 && i == LinearScan(w, random(round) as nat % Total(w), 0, 0) && i < |w|
    ensures Draw(w, random, round, count) == [i] + Draw(w[i := 0], random, round + 1, count)
  {
  }

  lemma DrawingStep(
      stakes: seq<uint64>, w: seq<nat>, total: uint64, random: nat -> uint64, round: nat, count: nat, picks: seq<nat>,
        i: nat)
    requires Drawing(stakes, w, total, random, round, count, picks) && round < count
    requires i < |w| && 0 < w[i] <= Total(w) && Total(w[i := 0]) == Total(w) - w[i]
    requires Draw(w, random, round, count) == [i] + Draw(w[i := 0], random, round + 1, count)
    ensures w[i] == stakes[i] as nat <= total as nat
    ensures Drawing(stakes, w[i := 0], total - stakes[i], random, round + 1, count, picks + [i])
  {
  }

  method TotalOf(stakes: seq<uint64>) returns (total: uint64)
    requires Total(Weights(stakes)) < LIMIT
    ensures total as int == Total(Weights(stakes))
  {
    total := 0;
    var i := 0;
    while i < |stakes|
      invariant 0 <= i <= |stakes|
      invariant total as int == Sum(Weights(stakes), 0, i)
    {
      SumWithinTotal(Weights(stakes), 0, i + 1);
      total := total + stakes[i];
      i := i + 1;
    }
  }

  /** The loop of both selections: it keeps the remaining stake and the tree in step with the scan's weights. */
  method DrawPositions(stakes: seq<uint64>, random: nat -> uint64, count: nat) returns (picks: seq<nat>)
    requires Total(Weights(stakes)) < LIMIT
    ensures picks == Draw(Weights(stakes), random, 0, count)
  {
    var tree := new StakeFenwickTree(stakes);
    var totalStakeSum := TotalOf(stakes);
    picks := [];
    var round := 0;
    while round < count && totalStakeSum > 0
      invariant 0 <= round <= count && fresh(tree) && fresh(tree.tree) && tree.Valid() && tree.n == |stakes|
      invariant Drawing(stakes, tree.weights, totalStakeSum, random, round, count, picks)
      decreases count - round
    {
      var r := random(round) % totalStakeSum;
      PickTakesOneOut(tree.weights, r as nat);
      var idx := tree.FindByWeight(r);
      DrawUnfolds(tree.weights, random, round, count, idx);
      DrawingStep(stakes, tree.weights, totalStakeSum, random, round, count, picks, idx);
      picks := picks + [idx];
      totalStakeSum := totalStakeSum - stakes[idx];
      ghost var before := tree.weights;
      tree.Remove(idx, stakes[idx]);
      assert tree.weights == before[idx := 0];
      round := round + 1;
    }
    assert Draw(tree.weights, random, round, count) == [];
  }

  // ---------------------------------------------------------------------------------------------
  // The draw in order
  // ---------------------------------------------------------------------------------------------

  /** The weights with these positions taken out. */
  function Zeroed(w: seq<nat>, taken: seq<nat>): (left: seq<nat>)
    ensures |left| == |w|
  {
    seq(|w|, i requires 0 <= i < |w| => if i in taken then 0 else w[i])
  }

  /** Entry j is where the random number of its round, reduced to what is left, falls in what is left. */
  ghost predicate FallsInTurn(w: seq<nat>, random: nat -> uint64, round: nat, positions: seq<nat>, j: nat)
    requires j < |positions|
  {
    var left := Zeroed(w, positions[..j]);
    Total(left) > 0 && Falls(left, random(round + j) as nat % Total(left), positions[j])
  }

  /** The positions are drawn in this order, and the draw ends only at `count` or when nothing is left. */
  ghost predicate DrawnPositions(w: seq<nat>, random: nat -> uint64, round: nat, count: nat, positions: seq<nat>) {
    && (forall j: nat | j < |positions| :: FallsInTurn(w, random, round, positions, j))
    && |positions| <= count && (|positions| == count || Total(Zeroed(w, positions)) == 0)
  }

  lemma ZeroedOfUpdate(w: seq<nat>, i: nat, taken: seq<nat>)
    requires i < |w|
    ensures Zeroed(w[i := 0], taken) == Zeroed(w, [i] + taken)
  {
  }

  lemma FallsAfterFirst(w: seq<nat>, random: nat -> uint64, round: nat, i: nat, rest: seq<nat>, j: nat)
    requires i < |w| && 0 < j <= |rest| && FallsInTurn(w[i := 0], random, round + 1, rest, j - 1)
    ensures FallsInTurn(w, random, round, [i] + rest, j)
  {
    assert ([i] + rest)[..j] == [i] + rest[..j - 1];
    ZeroedOfUpdate(w, i, rest[..j - 1]);
  }

  lemma NothingZeroed(w: seq<nat>)
    ensures Zeroed(w, []) == w
  {
  }

  lemma {:induction false} DrawFallsInTurn(w: seq<nat>, random: nat -> uint64, round: nat, count: nat)
    requires round <= count
    ensures DrawnPositions(w, random, round, count - round, Draw(w, random, round, count))
    decreases count - round
  {
    NothingZeroed(w);
    if round < count && Total(w) > 0 {
      var r := random(round) as nat % Total(w);
      PickTakesOneOut(w, r);
      var i := LinearScan(w, r, 0, 0);
      var rest := Draw(w[i := 0], random, round + 1, count);
      DrawUnfolds(w, random, round, count, i);
      DrawFallsInTurn(w[i := 0], random, round + 1, count);
      ZeroedOfUpdate(w, i, rest);
      assert ([i] + rest)[..0] == [];
      forall j: nat | j < |[i] + rest|
        ensures FallsInTurn(w, random, round, [i] + rest, j)
      {
        if j > 0 {
          assert FallsInTurn(w[i := 0], random, round + 1, rest, j - 1);
          FallsAfterFirst(w, random, round, i, rest, j);
        }
      }
    }
  }

  /** There is only one such list: the random numbers determine every entry. */
  lemma {:induction false} DrawnPositionsUnique(
      w: seq<nat>, random: nat -> uint64, count: nat, a: seq<nat>, b: seq<nat>, n: nat)
    requires DrawnPositions(w, random, 0, count, a) && DrawnPositions(w, random, 0, count, b)
    requires n <= |a| && n <= |b|
    ensures a[..n] == b[..n]
  {
    if n > 0 {
      DrawnPositionsUnique(w, random, count, a, b, n - 1);
      assert FallsInTurn(w, random, 0, a, n - 1) && FallsInTurn(w, random, 0, b, n - 1);
      var left := Zeroed(w, a[..n - 1]);
      FallsUnique(left, random(n - 1) as nat % Total(left), a[n - 1], b[n - 1]);
      assert a[..n] == a[..n - 1] + [a[n - 1]] && b[..n] == b[..n - 1] + [b[n - 1]];
    }
  }

  // ---------------------------------------------------------------------------------------------
  // Quorum and leaders
  // ---------------------------------------------------------------------------------------------

  /** The registered validators that the getter finds, in registry order. */
  function Known(registry: seq<Key>, stakeOf: map<Key, uint64>): seq<Key> {
    if registry == [] then []
    else Known(registry[..|registry| - 1], stakeOf) + if registry[|registry| - 1] in stakeOf then
      [registry[|registry| - 1]] else []
  }

  lemma {:induction false} KnownFacts(registry: seq<Key>, stakeOf: map<Key, uint64>)
    ensures forall k | k in Known(registry, stakeOf) :: k in stakeOf
    ensures forall k :: k in Known(registry, stakeOf) <==> k in registry && k in stakeOf
    ensures Distinct(registry) ==> Distinct(Known(registry, stakeOf))
  {
    if registry != [] {
      var shorter := registry[..|registry| - 1];
      KnownFacts(shorter, stakeOf);
      assert registry == shorter + [registry[|registry| - 1]];
      assert Distinct(registry) ==> Distinct(shorter) && registry[|registry| - 1] !in shorter;
    }
  }

  function StakesOf(keys: seq<Key>, stakeOf: map<Key, uint64>): (stakes: seq<uint64>)
    ensures |stakes| == |keys|
  {
    seq(|keys|, i requires 0 <= i < |keys| => if keys[i] in stakeOf then stakeOf[keys[i]] else 0)
  }

  function Pick(keys: seq<Key>, positions: seq<nat>): (picked: seq<Key>)
    requires forall p | p in positions :: p < |keys|
    ensures |picked| == |positions|
  {
    seq(|positions|, i requires 0 <= i < |positions| => assert positions[i] in positions; keys[positions[i]])
  }

  predicate StakeSumFits(registry: seq<Key>, stakeOf: map<Key, uint64>) {
    Total(Weights(StakesOf(Known(registry, stakeOf), stakeOf))) < LIMIT
  }

  method CollectStakes(registry: seq<Key>, stakeOf: map<Key, uint64>) returns (pubkeys: seq<Key>, stakes: seq<uint64>)
    ensures pubkeys == Known(registry, stakeOf) && stakes == StakesOf(pubkeys, stakeOf)
  {
    pubkeys, stakes := [], [];
    var i := 0;
    while i < |registry|
      invariant 0 <= i <= |registry|
      invariant pubkeys == Known(registry[..i], stakeOf) && stakes == StakesOf(pubkeys, stakeOf)
    {
      assert registry[..i + 1][..i] == registry[..i];
      if registry[i] in stakeOf {
        pubkeys := pubkeys + [registry[i]];
        stakes := stakes + [stakeOf[registry[i]]];
      }
      i := i + 1;
    }
    assert registry[..i] == registry;
  }

  function DrawnKeys(registry: seq<Key>, stakeOf: map<Key, uint64>, random: nat -> uint64, count: nat): seq<Key> {
    var known := Known(registry, stakeOf);
    var w := Weights(StakesOf(known, stakeOf));
    DrawIsWithoutReplacement(w, random, 0, count);
    Pick(known, Draw(w, random, 0, count))
  }

  /** The validators that can be drawn at all. */
  function WithStake(registry: seq<Key>, stakeOf: map<Key, uint64>): set<Key> {
    set k | k in registry && k in stakeOf && stakeOf[k] > 0
  }

  /** The list keeps, in order, exactly the registered keys that the getter finds. */
  ghost predicate KeptInOrder(registry: seq<Key>, stakeOf: map<Key, uint64>, known: seq<Key>, from: seq<nat>) {
    && |from| == |known|
    && (forall i, j | 0 <= i < j < |from| :: from[i] < from[j])
    && (forall i | 0 <= i < |from| :: from[i] < |registry| && registry[from[i]] == known[i])
    && (forall p: nat | p < |registry| :: p in from <==> registry[p] in stakeOf)
  }

  lemma {:induction false} KnownKeptInOrder(registry: seq<Key>, stakeOf: map<Key, uint64>) returns (from: seq<nat>)
    ensures KeptInOrder(registry, stakeOf, Known(registry, stakeOf), from)
  {
    if registry == [] {
      from := [];
    } else {
      var n := |registry| - 1;
      from := KnownKeptInOrder(registry[..n], stakeOf);
      assert registry == registry[..n] + [registry[n]];
      assert forall p | p in from :: p < n;
      if registry[n] in stakeOf {
        from := from + [n];
      }
    }
  }

  function StakeAt(stakeOf: map<Key, uint64>, k: Key): nat {
    if k in stakeOf then stakeOf[k] as nat else 0
  }

  /** Every key's stake. */
  function StakesIn(known: seq<Key>, stakeOf: map<Key, uint64>): (w: seq<nat>)
    ensures |w| == |known|
  {
    seq(|known|, i requires 0 <= i < |known| => StakeAt(stakeOf, known[i]))
  }

  /** The list names, in order, the known keys at positions drawn by the random numbers. */
  ghost predicate DrawnInOrder(
      known: seq<Key>, stakeOf: map<Key, uint64>, random: nat -> uint64, count: nat, drawn: seq<Key>) {
    exists positions: seq<nat> ::
      && DrawnPositions(StakesIn(known, stakeOf), random, 0, count, positions)
      && |drawn| == |positions|
      && forall j: nat | j < |drawn| :: positions[j] < |known| && drawn[j] == known[positions[j]]
  }

  /** Drawn in this order from the known keys of the registry, as many as asked for. */
  ghost predicate QuorumDrawn(
      registry: seq<Key>, stakeOf: map<Key, uint64>, random: nat -> uint64, count: nat, drawn: seq<Key>) {
    exists known, from ::
      KeptInOrder(registry, stakeOf, known, from) && DrawnInOrder(known, stakeOf, random, count, drawn)
  }

  /** The same with as many rounds as there are known keys. */
  ghost predicate LeadersDrawn(
      registry: seq<Key>, stakeOf: map<Key, uint64>, random: nat -> uint64, drawn: seq<Key>) {
    exists known, from ::
      KeptInOrder(registry, stakeOf, known, from) && DrawnInOrder(known, stakeOf, random, |known|, drawn)
  }

  lemma DrawnKeysInOrder(registry: seq<Key>, stakeOf: map<Key, uint64>, random: nat -> uint64, count: nat)
    ensures DrawnInOrder(Known(registry, stakeOf), stakeOf, random, count, DrawnKeys(registry, stakeOf, random, count))
    ensures QuorumDrawn(registry, stakeOf, random, count, DrawnKeys(registry, stakeOf, random, count))
  {
    var known := Known(registry, stakeOf);
    var from := KnownKeptInOrder(registry, stakeOf);
    var w := Weights(StakesOf(known, stakeOf));
    assert w == StakesIn(known, stakeOf);
    var positions := Draw(w, random, 0, count);
    DrawFallsInTurn(w, random, 0, count);
    DrawIsWithoutReplacement(w, random, 0, count);
    var drawn := DrawnKeys(registry, stakeOf, random, count);
    forall j: nat | j < |drawn|
      ensures positions[j] < |known| && drawn[j] == known[positions[j]]
    {
      assert positions[j] in positions;
    }
  }

  lemma AllDrawnInOrder(registry: seq<Key>, stakeOf: map<Key, uint64>, random: nat -> uint64)
    ensures LeadersDrawn(registry, stakeOf, random, DrawnKeys(registry, stakeOf, random, |Known(registry, stakeOf)|))
  {
    var from := KnownKeptInOrder(registry, stakeOf);
    DrawnKeysInOrder(registry, stakeOf, random, |Known(registry, stakeOf)|);
  }

  method GetCurrentEpochQuorum(registry: seq<Key>, quorumSize: nat, stakeOf: map<Key, uint64>, random: nat -> uint64)
    returns (quorum: seq<Key>)
    requires StakeSumFits(registry, stakeOf)
    ensures quorum == if |registry| <= quorumSize then registry else DrawnKeys(registry, stakeOf, random, quorumSize)
    ensures if |registry| <= quorumSize then quorum == registry
            else QuorumDrawn(registry, stakeOf, random, quorumSize, quorum)
  {
    if |registry| <= quorumSize {
      return registry;
    }
    var pubkeys, stakes := CollectStakes(registry, stakeOf);
    var positions := DrawPositions(stakes, random, quorumSize);
    DrawIsWithoutReplacement(Weights(stakes), random, 0, quorumSize);
    DrawnKeysInOrder(registry, stakeOf, random, quorumSize);
    quorum := Pick(pubkeys, positions);
  }

  method SetLeadersSequence(registry: seq<Key>, stakeOf: map<Key, uint64>, random: nat -> uint64)
    returns (leaders: seq<Key>)
    requires StakeSumFits(registry, stakeOf)
    ensures leaders == DrawnKeys(registry, stakeOf, random, |Known(registry, stakeOf)|)
    ensures LeadersDrawn(registry, stakeOf, random, leaders)
  {
    var pubkeys, stakes := CollectStakes(registry, stakeOf);
    var positions := DrawPositions(stakes, random, |pubkeys|);
    DrawIsWithoutReplacement(Weights(stakes), random, 0, |pubkeys|);
    AllDrawnInOrder(registry, stakeOf, random);
    leaders := Pick(pubkeys, positions);
  }

  lemma PickedDistinct(keys: seq<Key>, positions: seq<nat>)
    requires forall p | p in positions :: p < |keys|
    requires Distinct(keys) && Distinct(positions)
    ensures Distinct(Pick(keys, positions))
  {
    var picked := Pick(keys, positions);
    forall i, j | 0 <= i < j < |picked|
      ensures picked[i] != picked[j]
    {
      assert positions[i] in positions && positions[j] in positions;
    }
  }

  function PositiveBelow(w: seq<nat>, hi: nat): set<nat>
    requires hi <= |w|
  {
    if hi == 0 then {} else PositiveBelow(w, hi - 1) + if w[hi - 1] > 0 then {hi - 1} else {}
  }

  function NamesBelow(keys: seq<Key>, w: seq<nat>, hi: nat): set<Key>
    requires hi <= |w| == |keys|
  {
    if hi == 0 then {} else NamesBelow(keys, w, hi - 1) + if w[hi - 1] > 0 then {keys[hi - 1]} else {}
  }

  lemma {:induction false} PositiveBelowHas(w: seq<nat>, hi: nat, i: nat)
    requires hi <= |w|
    ensures i in PositiveBelow(w, hi) <==> i < hi && w[i] > 0
  {
    if hi > 0 {
      PositiveBelowHas(w, hi - 1, i);
    }
  }

  lemma {:induction false} NamesBelowHas(keys: seq<Key>, w: seq<nat>, hi: nat, k: Key)
    requires hi <= |w| == |keys|
    ensures k in NamesBelow(keys, w, hi) <==> exists i: nat :: i < hi && w[i] > 0 && keys[i] == k
  {
    if hi > 0 {
      NamesBelowHas(keys, w, hi - 1, k);
    }
  }

  lemma GrowTogether<T, U>(a: set<T>, x: T, b: set<U>, y: U)
    requires x !in a && y !in b && |a| == |b|
    ensures |a + {x}| == |b + {y}|
  {
  }

  lemma NextIsNew(keys: seq<Key>, w: seq<nat>, hi: nat)
    requires 0 < hi <= |w| == |keys| && Distinct(keys)
    ensures hi - 1 !in PositiveBelow(w, hi - 1) && keys[hi - 1] !in NamesBelow(keys, w, hi - 1)
  {
    PositiveBelowHas(w, hi - 1, hi - 1);
    NamesBelowHas(keys, w, hi - 1, keys[hi - 1]);
  }

  lemma CountOneMore(keys: seq<Key>, w: seq<nat>, hi: nat)
    requires 0 < hi <= |w| == |keys| && |PositiveBelow(w, hi - 1)| == |NamesBelow(keys, w, hi - 1)|
    requires hi - 1 !in PositiveBelow(w, hi - 1) && keys[hi - 1] !in NamesBelow(keys, w, hi - 1)
    ensures |PositiveBelow(w, hi)| == |NamesBelow(keys, w, hi)|
  {
    if w[hi - 1] > 0 {
      GrowTogether(PositiveBelow(w, hi - 1), hi - 1, NamesBelow(keys, w, hi - 1), keys[hi - 1]);
    }
  }

  lemma {:induction false} PositionsAndNamesCount(keys: seq<Key>, w: seq<nat>, hi: nat)
    requires hi <= |w| == |keys| && Distinct(keys)
    ensures |PositiveBelow(w, hi)| == |NamesBelow(keys, w, hi)|
  {
    if hi > 0 {
      PositionsAndNamesCount(keys, w, hi - 1);
      NextIsNew(keys, w, hi);
      CountOneMore(keys, w, hi);
    }
  }

  lemma WithStakeNames(registry: seq<Key>, stakeOf: map<Key, uint64>, known: seq<Key>, w: seq<nat>)
    requires known == Known(registry, stakeOf) && w == Weights(StakesOf(known, stakeOf))
    ensures WithStake(registry, stakeOf) == NamesBelow(known, w, |known|)
  {
    KnownFacts(registry, stakeOf);
    forall k: Key
      ensures k in WithStake(registry, stakeOf) <==> k in NamesBelow(known, w, |known|)
    {
      NamesBelowHas(known, w, |known|, k);
      if k in WithStake(registry, stakeOf) {
        var i: nat :| i < |known| && known[i] == k;
        assert w[i] > 0;
      }
    }
  }

  lemma WithStakeCount(registry: seq<Key>, stakeOf: map<Key, uint64>)
    requires Distinct(registry)
    ensures |Positive(Weights(StakesOf(Known(registry, stakeOf), stakeOf)))| == |WithStake(registry, stakeOf)|
  {
    KnownFacts(registry, stakeOf);
    var known := Known(registry, stakeOf);
    var w := Weights(StakesOf(known, stakeOf));
    PositionsAndNamesCount(known, w, |known|);
    forall i: nat
      ensures i in Positive(w) <==> i in PositiveBelow(w, |known|)
    {
      PositiveBelowHas(w, |known|, i);
    }
    assert Positive(w) == PositiveBelow(w, |known|);
    WithStakeNames(registry, stakeOf, known, w);
  }

  /** A drawn list has no repeated key, only keys with stake, and as many as were asked for or have stake. */
  lemma DrawnKeysFacts(registry: seq<Key>, stakeOf: map<Key, uint64>, random: nat -> uint64, count: nat)
    requires Distinct(registry)
    ensures var drawn := DrawnKeys(registry, stakeOf, random, count);
            && Distinct(drawn)
            && (forall k | k in drawn :: k in WithStake(registry, stakeOf))
            && |drawn| == Min(count, |WithStake(registry, stakeOf)|)
  {
    var known := Known(registry, stakeOf);
    var w := Weights(StakesOf(known, stakeOf));
    KnownFacts(registry, stakeOf);
    DrawIsWithoutReplacement(w, random, 0, count);
    PickedDistinct(known, Draw(w, random, 0, count));
    WithStakeCount(registry, stakeOf);
    var drawn := DrawnKeys(registry, stakeOf, random, count);
    forall k | k in drawn
      ensures k in WithStake(registry, stakeOf)
    {
      var i :| 0 <= i < |drawn| && drawn[i] == k;
      var p := Draw(w, random, 0, count)[i];
      assert p in Draw(w, random, 0, count);
      assert k == known[p] && known[p] in known && w[p] > 0;
    }
  }

  /** What every key of a registry without repetitions weighs once the earlier ones are drawn. */
  function WithoutKeys(known: seq<Key>, stakeOf: map<Key, uint64>, drawn: seq<Key>): (w: seq<nat>)
    ensures |w| == |known|
  {
    seq(|known|, i requires 0 <= i < |known| => if known[i] in drawn then 0 else StakeAt(stakeOf, known[i]))
  }

  lemma ZeroedByName(known: seq<Key>, stakeOf: map<Key, uint64>, positions: seq<nat>, drawn: seq<Key>, n: nat)
    requires Distinct(known) && n <= |positions| == |drawn|
    requires forall j: nat | j < |drawn| :: positions[j] < |known| && drawn[j] == known[positions[j]]
    ensures Zeroed(StakesIn(known, stakeOf), positions[..n]) == WithoutKeys(known, stakeOf, drawn[..n])
  {
    forall i: nat | i < |known|
      ensures i in positions[..n] <==> known[i] in drawn[..n]
    {
      if i in positions[..n] {
        var j: nat :| j < n && positions[..n][j] == i;
        assert drawn[..n][j] == known[i];
      }
      if known[i] in drawn[..n] {
        var j: nat :| j < n && drawn[..n][j] == known[i];
        assert positions[..n][j] == i;
      }
    }
  }

  /** In a registry without repetitions: entry j of the drawn list is the key whose stake interval, among the keys not
  yet drawn, contains the random number of round j reduced to the stake that they have together. */
  lemma EntryFallsInItsStake(
      known: seq<Key>, stakeOf: map<Key, uint64>, random: nat -> uint64, count: nat, drawn: seq<Key>, j: nat)
    returns (p: nat)
    requires Distinct(known) && DrawnInOrder(known, stakeOf, random, count, drawn) && j < |drawn|
    ensures var left := WithoutKeys(known, stakeOf, drawn[..j]);
            && p < |known| && known[p] == drawn[j] && Total(left) > 0
            && Sum(left, 0, p) <= random(j) as nat % Total(left) < Sum(left, 0, p + 1)
  {
    var positions: seq<nat> :| DrawnPositions(StakesIn(known, stakeOf), random, 0, count, positions)
      && |drawn| == |positions|
      && forall j: nat | j < |drawn| :: positions[j] < |known| && drawn[j] == known[positions[j]];
    assert FallsInTurn(StakesIn(known, stakeOf), random, 0, positions, j);
    ZeroedByName(known, stakeOf, positions, drawn, j);
    p := positions[j];
  }

  lemma {:induction false} SubsetOfSeqCount(s: seq<Key>, elements: set<Key>)
    requires forall k | k in elements :: k in s
    ensures |elements| <= |s|
  {
    if s == [] {
      assert elements == {};
    } else {
      SubsetOfSeqCount(s[1..], elements - {s[0]});
    }
  }

  /** The leader sequence is a permutation of the validators with stake. */
  lemma LeadersArePermutation(registry: seq<Key>, stakeOf: map<Key, uint64>, random: nat -> uint64)
    requires Distinct(registry)
    ensures var leaders := DrawnKeys(registry, stakeOf, random, |Known(registry, stakeOf)|);
            Distinct(leaders) && forall k :: k in leaders <==> k in WithStake(registry, stakeOf)
  {
    var known := Known(registry, stakeOf);
    KnownFacts(registry, stakeOf);
    DrawnKeysFacts(registry, stakeOf, random, |known|);
    SubsetOfSeqCount(known, WithStake(registry, stakeOf));
    DistinctCount(DrawnKeys(registry, stakeOf, random, |known|), WithStake(registry, stakeOf));
  }

  // ---------------------------------------------------------------------------------------------
  // Last-mile finalizers
  // ---------------------------------------------------------------------------------------------

  const LAST_MILE_FINALIZERS_COUNT: nat := 5

  function SwapAt(s: seq<nat>, i: nat, j: nat): seq<nat>
    requires i < |s| && j < |s|
  {
    s[i := s[j]][j := s[i]]
  }

  /** The partial shuffle: rounds i, ..., count - 1 each swap position i with one at or after it. */
  function Shuffled(s: seq<nat>, random: nat -> uint64, i: nat, count: nat): (t: seq<nat>)
    requires i <= count <= |s|
    ensures |t| == |s|
    decreases count - i
  {
    if i == count then s
    else Shuffled(SwapAt(s, i, i + random(i) as nat % (|s| - i)), random, i + 1, count)
  }

  lemma {:induction false} ShuffleKeepsElements(s: seq<nat>, random: nat -> uint64, i: nat, count: nat)
    requires i <= count <= |s|
    ensures multiset(Shuffled(s, random, i, count)) == multiset(s)
    decreases count - i
  {
    if i < count {
      var swapped := SwapAt(s, i, i + random(i) as nat % (|s| - i));
      assert multiset(swapped) == multiset(s);
      ShuffleKeepsElements(swapped, random, i + 1, count);
    }
  }

  function Identity(n: nat): seq<nat> {
    seq(n, i requires i >= 0 => i)
  }

  /** The members at the first `count` positions of the shuffled order. */
  function Chosen(quorum: seq<Key>, order: seq<nat>, count: nat): (chosen: seq<Key>)
    requires count <= |order|
    ensures |chosen| == count
  {
    seq(count, i requires 0 <= i < count => if order[i] < |quorum| then quorum[order[i]] else "")
  }

  function LastMileFinalizers(quorum: seq<Key>, random: nat -> uint64): seq<Key> {
    var count := Min(LAST_MILE_FINALIZERS_COUNT, |quorum|);
    Chosen(quorum, Shuffled(Identity(|quorum|), random, 0, count), count)
  }

  /** Taking one of the remaining elements per round, at the place that the round's random number names; the first of
  them moves into the place that becomes free. */
  function Taken<T>(rest: seq<T>, random: nat -> uint64, round: nat, count: nat): (taken: seq<T>)
    requires round <= count <= round + |rest|
    ensures |taken| == count - round
    decreases count - round
  {
    if round == count then []
    else
      var r := random(round) as nat % |rest|;
      [rest[r]] + Taken(rest[r := rest[0]][1..], random, round + 1, count)
  }

  lemma SwapTakes(s: seq<nat>, i: nat, r: nat)
    requires i < |s| && r < |s| - i
    ensures SwapAt(s, i, i + r)[..i] == s[..i] && SwapAt(s, i, i + r)[i] == s[i..][r]
    ensures SwapAt(s, i, i + r)[i + 1..] == s[i..][r := s[i..][0]][1..]
  {
    var swapped, behind := SwapAt(s, i, i + r), s[i..];
    assert behind[0] == s[i] && behind[r] == s[i + r];
    assert |swapped| == |s| && swapped[i] == s[i + r];
    assert swapped[i..] == behind[r := behind[0]][0 := behind[r]];
    assert swapped[i + 1..] == swapped[i..][1..];
  }

  lemma TakenUnfolds<T>(rest: seq<T>, random: nat -> uint64, round: nat, count: nat)
    requires round < count <= round + |rest|
    ensures var r := random(round) as nat % |rest|;
            Taken(rest, random, round, count) == [rest[r]] + Taken(rest[r := rest[0]][1..], random, round + 1, count)
  {
  }

  /** The shuffle in place takes from the part behind the round, and leaves the part before it. */
  lemma {:induction false} ShuffleTakes(s: seq<nat>, random: nat -> uint64, i: nat, count: nat)
    requires i <= count <= |s|
    ensures Shuffled(s, random, i, count)[..count] == s[..i] + Taken(s[i..], random, i, count)
    decreases count - i
  {
    if i < count {
      var r := random(i) as nat % (|s| - i);
      var swapped := SwapAt(s, i, i + r);
      SwapTakes(s, i, r);
      ShuffleTakes(swapped, random, i + 1, count);
      TakenUnfolds(s[i..], random, i, count);
      assert swapped[..i + 1] == s[..i] + [s[i..][r]];
    }
  }

  /** The second list names the keys at the places of the first. */
  ghost predicate Names(keys: seq<Key>, places: seq<nat>, named: seq<Key>) {
    |places| == |named| && forall j | 0 <= j < |places| :: places[j] < |keys| && named[j] == keys[places[j]]
  }

  lemma NamesLeft(keys: seq<Key>, places: seq<nat>, named: seq<Key>, r: nat)
    requires Names(keys, places, named) && r < |places|
    ensures Names(keys, places[r := places[0]][1..], named[r := named[0]][1..])
  {
  }

  lemma NamesCons(keys: seq<Key>, place: nat, places: seq<nat>, named: seq<Key>)
    requires place < |keys| && Names(keys, places, named)
    ensures Names(keys, [place] + places, [keys[place]] + named)
  {
  }

  lemma {:induction false} TakenNames(
      keys: seq<Key>, places: seq<nat>, named: seq<Key>, random: nat -> uint64, round: nat, count: nat)
    requires Names(keys, places, named) && round <= count <= round + |places|
    ensures Names(keys, Taken(places, random, round, count), Taken(named, random, round, count))
    decreases count - round
  {
    if round < count {
      var r := random(round) as nat % |places|;
      var leftPlaces, leftNamed := places[r := places[0]][1..], named[r := named[0]][1..];
      NamesLeft(keys, places, named, r);
      TakenNames(keys, leftPlaces, leftNamed, random, round + 1, count);
      NamesCons(keys, places[r], Taken(leftPlaces, random, round + 1, count),
        Taken(leftNamed, random, round + 1, count));
    }
  }

  lemma ShuffledFront(n: nat, random: nat -> uint64, count: nat)
    requires count <= n
    ensures Shuffled(Identity(n), random, 0, count)[..count] == Taken(Identity(n), random, 0, count)
  {
    ShuffleTakes(Identity(n), random, 0, count);
    assert Identity(n)[..0] == [] && Identity(n)[0..] == Identity(n);
  }

  lemma ChosenAreNamed(quorum: seq<Key>, order: seq<nat>, count: nat, named: seq<Key>)
    requires count <= |order| && Names(quorum, order[..count], named)
    ensures Chosen(quorum, order, count) == named
  {
    forall i | 0 <= i < count
      ensures Chosen(quorum, order, count)[i] == named[i]
    {
      assert order[i] == order[..count][i];
    }
  }

  /** The finalizers are taken one by one from the quorum. */
  lemma FinalizersAreTaken(quorum: seq<Key>, random: nat -> uint64, count: nat)
    requires count == Min(LAST_MILE_FINALIZERS_COUNT, |quorum|)
    ensures LastMileFinalizers(quorum, random) == Taken(quorum, random, 0, count)
  {
    var n := |quorum|;
    ShuffledFront(n, random, count);
    assert Names(quorum, Identity(n), quorum);
    TakenNames(quorum, Identity(n), quorum, random, 0, count);
    ChosenAreNamed(quorum, Shuffled(Identity(n), random, 0, count), count, Taken(quorum, random, 0, count));
  }

  method ShuffleInPlace(indices: array<nat>, random: nat -> uint64, count: nat)
    requires count <= indices.Length
    modifies indices
    ensures indices[..] == Shuffled(old(indices[..]), random, 0, count)
  {
    var i := 0;
    while i < count
      invariant 0 <= i <= count
      invariant Shuffled(indices[..], random, i, count) == Shuffled(old(indices[..]), random, 0, count)
    {
      var r := random(i) as nat % (indices.Length - i);
      var j := i + r;
      ghost var before := indices[..];
      indices[i], indices[j] := indices[j], indices[i];
      assert indices[..] == SwapAt(before, i, j);
      i := i + 1;
    }
  }

  method SelectLastMileFinalizers(quorum: seq<Key>, random: nat -> uint64) returns (selected: seq<Key>)
    ensures selected == LastMileFinalizers(quorum, random)
    ensures selected == Taken(quorum, random, 0, Min(LAST_MILE_FINALIZERS_COUNT, |quorum|))
  {
    FinalizersAreTaken(quorum, random, Min(LAST_MILE_FINALIZERS_COUNT, |quorum|));
    if |quorum| == 0 {
      return [];
    }
    var count := LAST_MILE_FINALIZERS_COUNT;
    if count > |quorum| {
      count := |quorum|;
    }
    var indices := new nat[|quorum|](i => i);
    assert indices[..] == Identity(|quorum|);
    ShuffleInPlace(indices, random, count);
    selected := Chosen(quorum, indices[..], count);
  }

  lemma RepeatsShowInMultiset(s: seq<nat>, i: nat, j: nat)
    requires i < j < |s|
    ensures s[i] == s[j] ==> multiset(s)[s[i]] >= 2
  {
    assert s == s[..i] + [s[i]] + s[i + 1..j] + [s[j]] + s[j + 1..];
  }

  lemma {:induction false} IdentityHasNoRepeats(n: nat, k: nat)
    ensures multiset(Identity(n))[k] == if k < n then 1 else 0
  {
    if n > 0 {
      IdentityHasNoRepeats(n - 1, k);
      assert Identity(n) == Identity(n - 1) + [n - 1];
    }
  }

  lemma ShuffledIdentity(n: nat, random: nat -> uint64, count: nat)
    requires count <= n
    ensures var order := Shuffled(Identity(n), random, 0, count);
            Distinct(order) && forall i | 0 <= i < |order| :: order[i] < n
  {
    var order := Shuffled(Identity(n), random, 0, count);
    ShuffleKeepsElements(Identity(n), random, 0, count);
    forall i | 0 <= i < |order|
      ensures order[i] < n
    {
      IdentityHasNoRepeats(n, order[i]);
      assert order[i] in multiset(order);
    }
    forall i, j | 0 <= i < j < |order|
      ensures order[i] != order[j]
    {
      RepeatsShowInMultiset(order, i, j);
      IdentityHasNoRepeats(n, order[i]);
    }
  }

  lemma ChosenDistinct(quorum: seq<Key>, order: seq<nat>, count: nat)
    requires count <= |order| && Distinct(quorum) && Distinct(order)
    requires forall i | 0 <= i < |order| :: order[i] < |quorum|
    ensures Distinct(Chosen(quorum, order, count)) && forall k | k in Chosen(quorum, order, count) :: k in quorum
  {
  }

  /** The finalizers of a quorum without repetitions are min(5, n) distinct members of it. */
  lemma FinalizersAreDistinctMembers(quorum: seq<Key>, random: nat -> uint64)
    requires Distinct(quorum)
    ensures var selected := LastMileFinalizers(quorum, random);
            Distinct(selected) && |selected| == Min(5, |quorum|) && forall k | k in selected :: k in quorum
  {
    var count := Min(LAST_MILE_FINALIZERS_COUNT, |quorum|);
    ShuffledIdentity(|quorum|, random, count);
    ChosenDistinct(quorum, Shuffled(Identity(|quorum|), random, 0, count), count);
  }
}
