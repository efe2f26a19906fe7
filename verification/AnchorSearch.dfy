/** The backwards search for the earliest rotation proof of an anchor, over fixed anchor chains. */
module AnchorSearch {
  import opened Wrappers
  import opened Sets

  datatype Stats = Stats(index: int, hash: string)

  /** A rotation proof inside an anchor block: which anchor it ends, at which block, and whether it verifies. */
  datatype Proof = Proof(anchor: string, stats: Stats, verifies: bool)

  /** What fetching a block gives; `genuine` says that creator, index and signature match. */
  datatype Block = Block(genuine: bool, proofs: seq<Proof>)

  /** The anchors' keys by index, the index map over them, and what a fetch of a block of an anchor returns. */
  datatype Anchors = Anchors(keys: seq<string>, indexOf: map<string, nat>, fetch: (nat, nat) -> Option<Block>)

  /** Where a proof for a target was found first, and what it says. */
  datatype Hit = Hit(block: nat, stats: Stats)

  // ---------------------------------------------------------------------------------------------
  // The search as functions
  // ---------------------------------------------------------------------------------------------

  /** The proof counts when it verifies and ends an anchor from `current` on, before anchor a. */
  predicate Counts(s: Anchors, current: nat, a: nat, p: Proof) {
    p.anchor in s.indexOf && current <= s.indexOf[p.anchor] < a && p.verifies
  }

  /** The hits after the proofs of one block; an earlier hit stays. */
  function Collect(
      s: Anchors, current: nat, a: nat, block: nat, proofs: seq<Proof>, hits: map<nat, Hit>): map<nat, Hit> {
    if proofs == [] then hits
    else
      var before := Collect(s, current, a, block, proofs[..|proofs| - 1], hits);
      var p := proofs[|proofs| - 1];
      if Counts(s, current, a, p) && s.indexOf[p.anchor] !in before then
        before[s.indexOf[p.anchor] := Hit(block, p.stats)]
      else before
  }

  /** The hits of scanning the blocks of anchor a from b up to the limit, or nothing when a block is missing or
  not genuine. */
  function Scan(s: Anchors, current: nat, a: nat, b: nat, limit: nat, hits: map<nat, Hit>): Option<map<nat, Hit>>
    requires current < a
    decreases limit - b
  {
    if b >= limit then Some(hits)
    else
      var block := s.fetch(a, b);
      if block.None? || !block.value.genuine then None
      else
        var more := Collect(s, current, a, b, block.value.proofs, hits);
        if |more| == a - current then Some(more) else Scan(s, current, a, b + 1, limit, more)
  }

  /** From anchor a down to the one after `current`: each level must find every earlier anchor, and bounds the
  next level. */
  function Search(s: Anchors, current: nat, a: nat, limit: nat): Option<Stats>
    decreases a
  {
    if a <= current then None
    else
      var hits := Scan(s, current, a, 0, limit, map[]);
      if hits.None? || |hits.value| != a - current || a - 1 !in hits.value then None
      else if a - 1 == current then Some(hits.value[current].stats)
      else Search(s, current, a - 1, hits.value[a - 1].block)
  }

  // ---------------------------------------------------------------------------------------------
  // What a hit is
  // ---------------------------------------------------------------------------------------------

  /** The first proof in the list that verifies and ends the target anchor. */
  function FirstFor(s: Anchors, target: nat, proofs: seq<Proof>): Option<Stats> {
    if proofs == [] then None
    else
      var before := FirstFor(s, target, proofs[..|proofs| - 1]);
      var p := proofs[|proofs| - 1];
      if before.Some? then before
      else if p.verifies && p.anchor in s.indexOf && s.indexOf[p.anchor] == target then Some(p.stats)
      else None
  }

  /** Block b of anchor a can be read, and holds this as its first proof for the target. */
  predicate Holds(s: Anchors, a: nat, b: nat, target: nat, found: Option<Stats>) {
    s.fetch(a, b).Some? && FirstFor(s, target, s.fetch(a, b).value.proofs) == found
  }

  /** The first proof for the target in the whole chain of anchor a. */
  ghost predicate IsFirst(s: Anchors, a: nat, target: nat, hit: Hit) {
    Holds(s, a, hit.block, target, Some(hit.stats)) && forall b: nat | b < hit.block :: Holds(s, a, b, target, None)
  }

  lemma {:induction false} CollectHit(
      s: Anchors, current: nat, a: nat, block: nat, proofs: seq<Proof>, hits: map<nat, Hit>, target: nat)
    requires current <= target < a
    ensures var more := Collect(s, current, a, block, proofs, hits);
            var found := FirstFor(s, target, proofs);
            && (target in hits ==> target in more && more[target] == hits[target])
            && (target !in hits && found.Some? ==> target in more && more[target] == Hit(block, found.value))
            && (target !in hits && found.None? ==> target !in more)
  {
    if proofs != [] {
      CollectHit(s, current, a, block, proofs[..|proofs| - 1], hits, target);
    }
  }

  lemma {:induction false} CollectKeys(
      s: Anchors, current: nat, a: nat, block: nat, proofs: seq<Proof>, hits: map<nat, Hit>)
    requires forall t | t in hits :: current <= t < a
    ensures forall t | t in Collect(s, current, a, block, proofs, hits) :: current <= t < a
  {
    if proofs != [] {
      CollectKeys(s, current, a, block, proofs[..|proofs| - 1], hits);
    }
  }

  /** Before block b every hit is the first one of the chain, and a target without a hit has none so far. */
  ghost predicate HitsAreFirst(s: Anchors, current: nat, a: nat, b: nat, hits: map<nat, Hit>) {
    && (forall t | t in hits :: current <= t < a && IsFirst(s, a, t, hits[t]))
    && (forall t: nat, c: nat | current <= t < a && t !in hits && c < b :: Holds(s, a, c, t, None))
  }

  lemma CollectKeepsFirst(s: Anchors, current: nat, a: nat, b: nat, hits: map<nat, Hit>)
    requires HitsAreFirst(s, current, a, b, hits) && s.fetch(a, b).Some?
    ensures HitsAreFirst(s, current, a, b + 1, Collect(s, current, a, b, s.fetch(a, b).value.proofs, hits))
  {
    var proofs := s.fetch(a, b).value.proofs;
    var more := Collect(s, current, a, b, proofs, hits);
    CollectKeys(s, current, a, b, proofs, hits);
    forall t | t in more
      ensures current <= t < a && IsFirst(s, a, t, more[t])
    {
      CollectHit(s, current, a, b, proofs, hits, t);
    }
    forall t: nat, c: nat | current <= t < a && t !in more && c < b + 1
      ensures Holds(s, a, c, t, None)
    {
      CollectHit(s, current, a, b, proofs, hits, t);
    }
  }

  lemma {:induction false} ScanFindsFirst(s: Anchors, current: nat, a: nat, b: nat, limit: nat, hits: map<nat, Hit>)
    requires current < a && HitsAreFirst(s, current, a, b, hits)
    ensures var result := Scan(s, current, a, b, limit, hits);
            result.Some? ==> forall t | t in result.value :: IsFirst(s, a, t, result.value[t])
    decreases limit - b
  {
    if b < limit && s.fetch(a, b).Some? && s.fetch(a, b).value.genuine {
      CollectKeepsFirst(s, current, a, b, hits);
      var more := Collect(s, current, a, b, s.fetch(a, b).value.proofs, hits);
      if |more| == a - current {
        assert Scan(s, current, a, b, limit, hits) == Some(more);
      } else {
        ScanFindsFirst(s, current, a, b + 1, limit, more);
        assert Scan(s, current, a, b, limit, hits) == Scan(s, current, a, b + 1, limit, more);
      }
    }
  }

  /** Whatever anchor and limit the search starts from, what it returns is the first proof for `current` in the chain of
  the next anchor. */
  lemma {:induction false} SearchFindsFirst(s: Anchors, current: nat, a: nat, limit: nat) returns (hit: Hit)
    requires Search(s, current, a, limit).Some?
    ensures IsFirst(s, current + 1, current, hit) && Search(s, current, a, limit) == Some(hit.stats)
    decreases a
  {
    var result := Scan(s, current, a, 0, limit, map[]);
    ScanFindsFirst(s, current, a, 0, limit, map[]);
    var hits := result.value;
    assert forall t | t in hits :: IsFirst(s, a, t, hits[t]);
    if a - 1 == current {
      hit := hits[current];
      assert a == current + 1 && IsFirst(s, a, current, hit);
    } else {
      hit := SearchFindsFirst(s, current, a - 1, hits[a - 1].block);
    }
  }

  lemma FirstIsUnique(s: Anchors, a: nat, target: nat, h1: Hit, h2: Hit)
    requires IsFirst(s, a, target, h1) && IsFirst(s, a, target, h2)
    ensures h1 == h2
  {
    assert !Holds(s, a, h1.block, target, None) && !Holds(s, a, h2.block, target, None);
  }

  /** All successful searches for one anchor agree. */
  lemma SearchConverges(s: Anchors, current: nat, a: nat, limit: nat, a': nat, limit': nat)
    requires Search(s, current, a, limit).Some? && Search(s, current, a', limit').Some?
    ensures Search(s, current, a, limit) == Search(s, current, a', limit')
  {
    var h := SearchFindsFirst(s, current, a, limit);
    var h' := SearchFindsFirst(s, current, a', limit');
    FirstIsUnique(s, current + 1, current, h, h');
  }

  lemma {:induction false} ScanWithHigherLimit(
      s: Anchors, current: nat, a: nat, b: nat, limit: nat, higher: nat, hits: map<nat, Hit>)
    requires current < a && limit <= higher && |hits| != a - current
    requires Scan(s, current, a, b, limit, hits).Some? && |Scan(s, current, a, b, limit, hits).value| == a - current
    ensures Scan(s, current, a, b, higher, hits) == Scan(s, current, a, b, limit, hits)
    decreases limit - b
  {
    if b < limit {
      var more := Collect(s, current, a, b, s.fetch(a, b).value.proofs, hits);
      if |more| != a - current {
        ScanWithHigherLimit(s, current, a, b + 1, limit, higher, more);
      }
    }
  }

  /** A search that succeeds also succeeds with any higher limit, and reads no further block for it. */
  lemma SearchWithHigherLimit(s: Anchors, current: nat, a: nat, limit: nat, higher: nat)
    requires limit <= higher && Search(s, current, a, limit).Some?
    ensures Search(s, current, a, higher) == Search(s, current, a, limit)
  {
    ScanWithHigherLimit(s, current, a, 0, limit, higher, map[]);
  }

  /** A search that succeeds from anchor a succeeds from every anchor between, with the limit that the level
  above found. */
  lemma {:induction false} SearchSucceedsBelow(s: Anchors, current: nat, a: nat, limit: nat, below: nat)
    returns (bound: nat)
    requires current < below <= a && Search(s, current, a, limit).Some?
    ensures Search(s, current, below, bound) == Search(s, current, a, limit)
    decreases a
  {
    bound := limit;
    if below < a {
      bound := SearchSucceedsBelow(s, current, a - 1, Scan(s, current, a, 0, limit, map[]).value[a - 1].block, below);
    }
  }

  // ---------------------------------------------------------------------------------------------
  // When a search succeeds
  // ---------------------------------------------------------------------------------------------

  function Range(current: nat, a: nat): (r: set<nat>)
    requires current <= a
    ensures |r| == a - current && forall t: nat :: t in r <==> current <= t < a
    decreases a
  {
    if current == a then {} else Range(current, a - 1) + {a - 1}
  }

  lemma FullHasAll(current: nat, a: nat, hits: map<nat, Hit>, t: nat)
    requires current <= t < a && t !in hits && forall u | u in hits :: current <= u < a
    ensures |hits| < a - current
  {
    SubsetCount(hits.Keys, Range(current, a) - {t});
  }

  /** Hits for targets from `current` on before a are as many as these exactly when there is one for each. */
  lemma FullIff(current: nat, a: nat, hits: map<nat, Hit>)
    requires current <= a && forall t | t in hits :: current <= t < a
    ensures |hits| <= a - current && (|hits| == a - current <==> forall t: nat | current <= t < a :: t in hits)
  {
    SubsetCount(hits.Keys, Range(current, a));
    if t: nat :| current <= t < a && t !in hits {
      FullHasAll(current, a, hits, t);
    } else {
      assert hits.Keys == Range(current, a);
    }
  }

  predicate Readable(s: Anchors, a: nat, b: nat) {
    s.fetch(a, b).Some? && s.fetch(a, b).value.genuine
  }

  /** Block b of anchor a holds a verifying proof that ends the target. */
  predicate Ends(s: Anchors, a: nat, b: nat, target: nat) {
    s.fetch(a, b).Some? && FirstFor(s, target, s.fetch(a, b).value.proofs).Some?
  }

  ghost predicate EndsWithin(s: Anchors, a: nat, n: nat, target: nat) {
    exists b: nat :: b < n && Ends(s, a, b, target)
  }

  /** The first n blocks of anchor a can be read, and among them end every anchor from `current` on before a. */
  ghost predicate EndsAll(s: Anchors, current: nat, a: nat, n: nat) {
    && (forall b: nat | b < n :: Readable(s, a, b))
    && (forall t: nat | current <= t < a :: EndsWithin(s, a, n, t))
  }

  /** A scan that has read the blocks before b and has some target left. */
  ghost predicate Scanning(s: Anchors, current: nat, a: nat, b: nat, hits: map<nat, Hit>) {
    && current < a && HitsAreFirst(s, current, a, b, hits) && |hits| != a - current
    && (forall t | t in hits :: hits[t].block < b)
    && (forall c: nat | c < b :: Readable(s, a, c))
  }

  lemma NoneEndsAllYet(s: Anchors, current: nat, a: nat, b: nat, hits: map<nat, Hit>, n: nat)
    requires Scanning(s, current, a, b, hits) && n <= b
    ensures !EndsAll(s, current, a, n)
  {
    FullIff(current, a, hits);
    var t: nat :| current <= t < a && t !in hits;
    forall c: nat | c < n
      ensures !Ends(s, a, c, t)
    {
      assert Holds(s, a, c, t, None);
    }
    assert !EndsWithin(s, a, n, t);
  }

  lemma HitEnds(s: Anchors, current: nat, a: nat, b: nat, hits: map<nat, Hit>, t: nat)
    requires Scanning(s, current, a, b, hits) && Readable(s, a, b) && current <= t < a
    requires t in Collect(s, current, a, b, s.fetch(a, b).value.proofs, hits)
    requires IsFirst(s, a, t, Collect(s, current, a, b, s.fetch(a, b).value.proofs, hits)[t])
    ensures Collect(s, current, a, b, s.fetch(a, b).value.proofs, hits)[t].block < b + 1 && EndsWithin(s, a, b + 1, t)
  {
    var hit := Collect(s, current, a, b, s.fetch(a, b).value.proofs, hits)[t];
    CollectHit(s, current, a, b, s.fetch(a, b).value.proofs, hits, t);
    assert Holds(s, a, hit.block, t, Some(hit.stats));
    assert Ends(s, a, hit.block, t);
  }

  lemma CollectFillsOrGoesOn(s: Anchors, current: nat, a: nat, n: nat, more: map<nat, Hit>)
    requires current < a && HitsAreFirst(s, current, a, n, more)
    requires forall c: nat | c < n :: Readable(s, a, c)
    requires forall t | t in more :: more[t].block < n && EndsWithin(s, a, n, t)
    ensures if |more| == a - current then EndsAll(s, current, a, n) else Scanning(s, current, a, n, more)
  {
    FullIff(current, a, more);
    if |more| == a - current {
      forall t: nat | current <= t < a
        ensures EndsWithin(s, a, n, t)
      {
        assert t in more;
      }
    }
  }

  lemma CollectEnds(s: Anchors, current: nat, a: nat, b: nat, hits: map<nat, Hit>) returns (more: map<nat, Hit>)
    requires Scanning(s, current, a, b, hits) && Readable(s, a, b)
    ensures more == Collect(s, current, a, b, s.fetch(a, b).value.proofs, hits)
    ensures HitsAreFirst(s, current, a, b + 1, more)
    ensures forall t | t in more :: more[t].block < b + 1 && EndsWithin(s, a, b + 1, t)
  {
    more := Collect(s, current, a, b, s.fetch(a, b).value.proofs, hits);
    CollectKeepsFirst(s, current, a, b, hits);
    forall t | t in more
      ensures more[t].block < b + 1 && EndsWithin(s, a, b + 1, t)
    {
      HitEnds(s, current, a, b, hits, t);
    }
  }

  lemma CollectGoesOn(s: Anchors, current: nat, a: nat, b: nat, hits: map<nat, Hit>) returns (more: map<nat, Hit>)
    requires Scanning(s, current, a, b, hits) && Readable(s, a, b)
    ensures more == Collect(s, current, a, b, s.fetch(a, b).value.proofs, hits)
    ensures if |more| == a - current then EndsAll(s, current, a, b + 1) else Scanning(s, current, a, b + 1, more)
  {
    more := CollectEnds(s, current, a, b, hits);
    CollectFillsOrGoesOn(s, current, a, b + 1, more);
  }

  predicate Full(result: Option<map<nat, Hit>>, size: nat) {
    result.Some? && |result.value| == size
  }

  lemma {:induction false} FullScanEndsAll(s: Anchors, current: nat, a: nat, b: nat, limit: nat, hits: map<nat, Hit>)
    returns (n: nat)
    requires Scanning(s, current, a, b, hits) && Full(Scan(s, current, a, b, limit, hits), a - current)
    ensures n <= limit && EndsAll(s, current, a, n)
    decreases limit - b
  {
    var more := CollectGoesOn(s, current, a, b, hits);
    if |more| == a - current {
      n := b + 1;
    } else {
      n := FullScanEndsAll(s, current, a, b + 1, limit, more);
    }
  }

  lemma ScanGoesOn(s: Anchors, current: nat, a: nat, b: nat, limit: nat, hits: map<nat, Hit>)
    returns (more: map<nat, Hit>)
    requires Scanning(s, current, a, b, hits) && Readable(s, a, b) && b < limit
    ensures Scan(s, current, a, b, limit, hits) ==
            if |more| == a - current then Some(more) else Scan(s, current, a, b + 1, limit, more)
    ensures |more| != a - current ==> Scanning(s, current, a, b + 1, more)
  {
    more := CollectGoesOn(s, current, a, b, hits);
  }

  lemma {:induction false} EndsAllGivesFullScan(
      s: Anchors, current: nat, a: nat, b: nat, limit: nat, hits: map<nat, Hit>, n: nat)
    requires Scanning(s, current, a, b, hits) && n <= limit && EndsAll(s, current, a, n)
    ensures Full(Scan(s, current, a, b, limit, hits), a - current)
    decreases limit - b
  {
    if n <= b {
      NoneEndsAllYet(s, current, a, b, hits, n);
    } else {
      assert Readable(s, a, b);
      var more := ScanGoesOn(s, current, a, b, limit, hits);
      if |more| != a - current {
        EndsAllGivesFullScan(s, current, a, b + 1, limit, more, n);
      }
    }
  }

  lemma ScanStarts(s: Anchors, current: nat, a: nat)
    requires current < a
    ensures Scanning(s, current, a, 0, map[])
  {
  }

  /** From anchor a down, each anchor's chain ends all earlier ones, within the limit and then within the blocks before
  the one that is the first to end the anchor below. */
  ghost predicate ProofsInPlace(s: Anchors, current: nat, a: nat, limit: nat)
    decreases a
  {
    && current < a && (exists n: nat :: n <= limit && EndsAll(s, current, a, n))
    && (a == current + 1
        || exists hit: Hit :: IsFirst(s, a, a - 1, hit) && ProofsInPlace(s, current, a - 1, hit.block))
  }

  lemma {:induction false} ScanKeepsTargets(s: Anchors, current: nat, a: nat, b: nat, limit: nat, hits: map<nat, Hit>)
    requires current < a && forall t | t in hits :: current <= t < a
    ensures var result := Scan(s, current, a, b, limit, hits);
            result.Some? ==> forall t | t in result.value :: current <= t < a
    decreases limit - b
  {
    if b < limit && Readable(s, a, b) {
      CollectKeys(s, current, a, b, s.fetch(a, b).value.proofs, hits);
      ScanKeepsTargets(s, current, a, b + 1, limit, Collect(s, current, a, b, s.fetch(a, b).value.proofs, hits));
    }
  }

  lemma FullScanHits(s: Anchors, current: nat, a: nat, limit: nat)
    requires current < a && Full(Scan(s, current, a, 0, limit, map[]), a - current)
    ensures var hits := Scan(s, current, a, 0, limit, map[]).value;
            a - 1 in hits && IsFirst(s, a, a - 1, hits[a - 1])
  {
    ScanFindsFirst(s, current, a, 0, limit, map[]);
    ScanKeepsTargets(s, current, a, 0, limit, map[]);
    FullIff(current, a, Scan(s, current, a, 0, limit, map[]).value);
  }

  lemma LevelIff(s: Anchors, current: nat, a: nat, limit: nat)
    requires current < a
    ensures Full(Scan(s, current, a, 0, limit, map[]), a - current) <==>
            exists n: nat :: n <= limit && EndsAll(s, current, a, n)
  {
    ScanStarts(s, current, a);
    if Full(Scan(s, current, a, 0, limit, map[]), a - current) {
      var n := FullScanEndsAll(s, current, a, 0, limit, map[]);
    } else if n: nat :| n <= limit && EndsAll(s, current, a, n) {
      EndsAllGivesFullScan(s, current, a, 0, limit, map[], n);
    }
  }

  lemma SearchUnfolds(s: Anchors, current: nat, a: nat, limit: nat, hit: Hit)
    requires current < a && Full(Scan(s, current, a, 0, limit, map[]), a - current)
    requires IsFirst(s, a, a - 1, hit)
    ensures Search(s, current, a, limit) ==
            if a - 1 == current then Some(hit.stats) else Search(s, current, a - 1, hit.block)
  {
    FullScanHits(s, current, a, limit);
    FirstIsUnique(s, a, a - 1, hit, Scan(s, current, a, 0, limit, map[]).value[a - 1]);
  }

  lemma {:induction false} InPlaceSucceeds(s: Anchors, current: nat, a: nat, limit: nat)
    requires ProofsInPlace(s, current, a, limit)
    ensures Search(s, current, a, limit).Some?
    decreases a
  {
    LevelIff(s, current, a, limit);
    FullScanHits(s, current, a, limit);
    if a == current + 1 {
      SearchUnfolds(s, current, a, limit, Scan(s, current, a, 0, limit, map[]).value[a - 1]);
    } else {
      var hit :| IsFirst(s, a, a - 1, hit) && ProofsInPlace(s, current, a - 1, hit.block);
      SearchUnfolds(s, current, a, limit, hit);
      InPlaceSucceeds(s, current, a - 1, hit.block);
    }
  }

  lemma {:induction false} SuccessIsInPlace(s: Anchors, current: nat, a: nat, limit: nat)
    requires Search(s, current, a, limit).Some?
    ensures ProofsInPlace(s, current, a, limit)
    decreases a
  {
    LevelIff(s, current, a, limit);
    FullScanHits(s, current, a, limit);
    var hit := Scan(s, current, a, 0, limit, map[]).value[a - 1];
    SearchUnfolds(s, current, a, limit, hit);
    if a > current + 1 {
      SuccessIsInPlace(s, current, a - 1, hit.block);
    }
  }

  /** A search succeeds exactly when the proofs are in place. */
  lemma SearchSucceedsIff(s: Anchors, current: nat, a: nat, limit: nat)
    ensures Search(s, current, a, limit).Some? <==> ProofsInPlace(s, current, a, limit)
  {
    if Search(s, current, a, limit).Some? {
      SuccessIsInPlace(s, current, a, limit);
    } else if ProofsInPlace(s, current, a, limit) {
      InPlaceSucceeds(s, current, a, limit);
    }
  }

  // ---------------------------------------------------------------------------------------------
  // The loops
  // ---------------------------------------------------------------------------------------------

  method CollectProofs(s: Anchors, current: nat, a: nat, block: nat, proofs: seq<Proof>, hits: map<nat, Hit>)
    returns (more: map<nat, Hit>)
    ensures more == Collect(s, current, a, block, proofs, hits)
  {
    more := hits;
    var i := 0;
    while i < |proofs|
      invariant 0 <= i <= |proofs|
      invariant more == Collect(s, current, a, block, proofs[..i], hits)
    {
      assert proofs[..i + 1][..i] == proofs[..i];
      var proof := proofs[i];
      i := i + 1;
      if proof.anchor !in s.indexOf || s.indexOf[proof.anchor] < current || s.indexOf[proof.anchor] >= a {
        continue;
      }
      if !proof.verifies {
        continue;
      }
      if s.indexOf[proof.anchor] !in more {
        more := more[s.indexOf[proof.anchor] := Hit(block, proof.stats)];
      }
    }
    assert proofs[..i] == proofs;
  }

  method FindEarliestAnchorRotationProof(s: Anchors, current: int, foundIn: int, blockLimit: int)
    returns (stats: Option<Stats>)
    ensures stats ==
            if 0 <= current < foundIn < |s.keys| && blockLimit >= 0 then Search(s, current, foundIn, blockLimit)
            else None
  {
    if current < 0 || foundIn >= |s.keys| {
      return None;
    }
    var searchLimit := blockLimit;
    var anchorIdx := foundIn;
    while anchorIdx > current
      invariant anchorIdx <= foundIn
      invariant current < foundIn && blockLimit >= 0 ==>
                  current < anchorIdx && searchLimit >= 0
                    && Search(s, current, anchorIdx, searchLimit) == Search(s, current, foundIn, blockLimit)
      invariant blockLimit < 0 ==> searchLimit < 0 && anchorIdx == foundIn
      decreases anchorIdx - current
    {
      var neededProofs := anchorIdx - current;
      var foundProofs: map<nat, Hit> := map[];
      var blockIndex := 0;
      while blockIndex < searchLimit
        invariant 0 <= blockIndex
        invariant searchLimit >= 0 ==> |foundProofs| != neededProofs
        invariant searchLimit >= 0 ==>
                    Scan(s, current, anchorIdx, 0, searchLimit, map[]) ==
                      Scan(s, current, anchorIdx, blockIndex, searchLimit, foundProofs)
        invariant searchLimit < 0 ==> foundProofs == map[]
        decreases searchLimit - blockIndex
      {
        var response := s.fetch(anchorIdx, blockIndex);
        if response.None? {
          return None;
        }
        if !response.value.genuine {
          return None;
        }
        foundProofs := CollectProofs(s, current, anchorIdx, blockIndex, response.value.proofs, foundProofs);
        if |foundProofs| == neededProofs {
          break;
        }
        blockIndex := blockIndex + 1;
      }
      if |foundProofs| != neededProofs {
        return None;
      }
      if anchorIdx - 1 !in foundProofs {
        return None;
      }
      searchLimit := foundProofs[anchorIdx - 1].block;
      if anchorIdx - 1 == current {
        return Some(foundProofs[anchorIdx - 1].stats);
      }
      anchorIdx := anchorIdx - 1;
    }
    return None;
  }

  // ---------------------------------------------------------------------------------------------
  // A response of an anchor
  // ---------------------------------------------------------------------------------------------

  datatype AnchorData = AnchorData(proofVerifies: bool, foundInBlock: int)

  /** A finalization proof of an anchor block; `id` is its block id when the text splits into epoch, key and index. */
  datatype AnchorAfp = AnchorAfp(verifies: bool, id: Option<(int, string, int)>)

  datatype AnchorIndex = At(index: int)

  datatype Response = Response(foundInAnchorIndex: int, anchors: map<AnchorIndex, AnchorData>, afp: Option<AnchorAfp>)

  /** The highest block that the response names, or -1. */
  ghost predicate IsMaxFound(anchors: map<AnchorIndex, AnchorData>, m: int) {
    && (forall a | a in anchors :: anchors[a].foundInBlock <= m)
    && -1 <= m && (m == -1 || exists a :: a in anchors && anchors[a].foundInBlock == m)
  }

  method MaxFoundInBlock(anchors: map<AnchorIndex, AnchorData>) returns (m: int)
    ensures IsMaxFound(anchors, m)
  {
    m := -1;
    var rest := anchors.Keys;
    while rest != {}
      invariant rest <= anchors.Keys && -1 <= m
      invariant forall a | a in anchors && a !in rest :: anchors[a].foundInBlock <= m
      invariant m == -1 || exists a :: a in anchors && anchors[a].foundInBlock == m
      decreases |rest|
    {
      var a :| a in rest;
      rest := rest - {a};
      if anchors[a].foundInBlock > m {
        m := anchors[a].foundInBlock;
      }
    }
  }

  /** The gates of a response: an anchor further on, a finalized block right after the named ones, and a proof for every
  anchor between. `afp` is the response's own proof of that block or, when it has none, the network's. */
  predicate Certified(s: Anchors, epoch: int, current: nat, r: Response, afp: Option<AnchorAfp>, limit: int) {
    && current < r.foundInAnchorIndex < |s.keys| && limit > 0
    && afp.Some? && afp.value.verifies && afp.value.id == Some((epoch, s.keys[r.foundInAnchorIndex], limit))
    && forall a | current <= a < r.foundInAnchorIndex :: At(a) in r.anchors && r.anchors[At(a)].proofVerifies
  }

  function AfpFor(r: Response, fetchAfp: int -> Option<AnchorAfp>, limit: int): Option<AnchorAfp> {
    if r.afp.None? then fetchAfp(limit) else r.afp
  }

  lemma MaxFoundIsUnique(anchors: map<AnchorIndex, AnchorData>, m: int)
    requires IsMaxFound(anchors, m)
    ensures forall other | IsMaxFound(anchors, other) :: other == m
  {
  }

  method ProcessResponse(s: Anchors, epoch: int, current: nat, r: Response, fetchAfp: int -> Option<AnchorAfp>)
    returns (stats: Option<Stats>)
    ensures forall m | IsMaxFound(r.anchors, m) ::
              stats ==
              if Certified(s, epoch, current, r, AfpFor(r, fetchAfp, m + 1), m + 1) then
                Search(s, current, r.foundInAnchorIndex, m + 1)
              else None
  {
    if r.foundInAnchorIndex <= current || r.foundInAnchorIndex >= |s.keys| {
      return None;
    }
    var maxFoundInBlock := MaxFoundInBlock(r.anchors);
    MaxFoundIsUnique(r.anchors, maxFoundInBlock);
    if maxFoundInBlock < 0 {
      return None;
    }
    var afp := if r.afp.None? then fetchAfp(maxFoundInBlock + 1) else r.afp;
    if afp.None? || !afp.value.verifies || afp.value.id.None? {
      return None;
    }
    var (epochOfBlock, anchor, index) := afp.value.id.value;
    if epochOfBlock != epoch || anchor != s.keys[r.foundInAnchorIndex] || index != maxFoundInBlock + 1 {
      return None;
    }
    var i: int := current;
    while i < r.foundInAnchorIndex
      invariant current <= i <= r.foundInAnchorIndex
      invariant forall a | current <= a < i :: At(a) in r.anchors && r.anchors[At(a)].proofVerifies
    {
      if At(i) !in r.anchors || !r.anchors[At(i)].proofVerifies {
        return None;
      }
      i := i + 1;
    }
    stats := FindEarliestAnchorRotationProof(s, current, r.foundInAnchorIndex, index);
  }

  /** All accepted responses about one anchor agree, whatever anchor and block they name: each gives the first proof in
  the next anchor's chain. */
  lemma AcceptedResponsesAgree(
      s: Anchors, epoch: int, current: nat, r: Response, afp: Option<AnchorAfp>, limit: int, r': Response,
        afp': Option<AnchorAfp>, limit': int)
    requires Certified(s, epoch, current, r, afp, limit) && Certified(s, epoch, current, r', afp', limit')
    requires Search(s, current, r.foundInAnchorIndex, limit).Some?
             && Search(s, current, r'.foundInAnchorIndex, limit').Some?
    ensures Search(s, current, r.foundInAnchorIndex, limit) == Search(s, current, r'.foundInAnchorIndex, limit')
  {
    SearchConverges(s, current, r.foundInAnchorIndex, limit, r'.foundInAnchorIndex, limit');
  }
}
