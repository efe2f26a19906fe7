/** Ideal signatures, the payloads that quorum members sign, and quorum majorities.

A signature is symbolic: it names its signer and its payload, so that checking one is an equality. What the adversary
cannot do is stated by `Unforged`: a signature of an honest key occurs in a message only after that key issued it. Keys
outside the honest set sign whatever they like. */
module Signatures {
  import opened Sets

  type Key = string
  type Hash = string

  const ZERO_HASH: Hash := "0123456789abcdef0123456789abcdef0123456789abcdef0123456789abcdef"

  /** The text `hash#id` that names one epoch of one network. */
  datatype EpochRef = EpochRef(hash: Hash, id: int)

  /** The text `epoch:creator:index`, or any text that does not split into these three parts. */
  datatype BlockId =
    | BlockId(epoch: int, creator: Key, index: int)
    | OtherText(text: string)

  datatype Payload =
    | AfpVote(prevHash: Hash, id: BlockId, hash: Hash, epoch: EpochRef)
    | LeaderEnd(leader: Key, lastIndex: int, hash: Hash, epoch: EpochRef)
    | HeightOf(height: int, id: BlockId, hash: Hash, epochId: int, heightInEpoch: int)
    | RotationOf(epochId: int, nextEpochId: int, dataHash: Hash, finishedOnHeight: int, finishedOnId: BlockId,
      finishedOnHash: Hash)
    | ParameterVote(epoch: EpochRef, field: string, newValue: string)
    | VersionVote(epoch: EpochRef, newMajorVersion: int)

  datatype Signature =
    | NoSignature
    | Garbage(text: string)
    | SignedBy(signer: Key, payload: Payload)

  type Signatures = map<Key, Signature>

  predicate VerifySignature(payload: Payload, key: Key, signature: Signature) {
    signature == SignedBy(key, payload)
  }

  // ---------------------------------------------------------------------------------------------
  // Counting signatures
  // ---------------------------------------------------------------------------------------------

  /** The keys whose entry is a genuine signature by an allowed member over the payload. */
  function VerifiedSigners(signatures: Signatures, allowed: set<Key>, payload: Payload): set<Key> {
    set k | k in signatures && k in allowed && VerifySignature(payload, k, signatures[k])
  }

  /** The counter behind every aggregated proof: each allowed member counts once, whatever the map's order. */
  method CountVerifiedUniqueSignatures(signatures: Signatures, allowed: set<Key>, payload: Payload)
    returns (verified: nat)
    ensures verified == |VerifiedSigners(signatures, allowed, payload)|
  {
    verified := 0;
    var seen: set<Key> := {};
    var rest := signatures.Keys;
    while rest != {}
      invariant rest <= signatures.Keys
      invariant seen == VerifiedSigners(signatures, allowed, payload) - rest
      invariant verified == |seen|
      decreases |rest|
    {
      var key :| key in rest;
      rest := rest - {key};
      var signature := signatures[key];
      if signature == NoSignature || key !in allowed || key in seen {
        continue;
      }
      if VerifySignature(payload, key, signature) {
        seen := seen + {key};
        verified := verified + 1;
      }
    }
  }

  // ---------------------------------------------------------------------------------------------
  // Majorities
  // ---------------------------------------------------------------------------------------------

  function Members(quorum: seq<Key>): set<Key> {
    set k | k in quorum
  }

  function Majority(quorumSize: nat): nat {
    var majority := 2 * quorumSize / 3 + 1;
    if majority > quorumSize then quorumSize else majority
  }

  function MaxFaulty(quorumSize: nat): nat {
    if quorumSize == 0 then 0 else (quorumSize - 1) / 3
  }

  /** At most a third of the quorum is outside the honest set, and there is a quorum at all. */
  predicate MostlyHonest(quorum: seq<Key>, honest: set<Key>) {
    && quorum != []
    && |Members(quorum) - honest| <= MaxFaulty(|quorum|)
  }

  predicate IsMajority(quorum: seq<Key>, signers: set<Key>) {
    signers <= Members(quorum) && |signers| >= Majority(|quorum|)
  }

  lemma {:induction false} MembersCount(quorum: seq<Key>)
    ensures |Members(quorum)| <= |quorum|
  {
    if quorum != [] {
      MembersCount(quorum[1..]);
      assert Members(quorum) == Members(quorum[1..]) + {quorum[0]};
    }
  }

  /** Any two majorities of a mostly honest quorum share an honest member, even when a key is listed twice. */
  lemma MajoritiesShareHonestMember(quorum: seq<Key>, honest: set<Key>, a: set<Key>, b: set<Key>) returns (k: Key)
    requires MostlyHonest(quorum, honest)
    requires IsMajority(quorum, a) && IsMajority(quorum, b)
    ensures k in a && k in b && k in honest
  {
    MembersCount(quorum);
    var faulty := Members(quorum) - honest;
    assert |a + b| <= |Members(quorum)| by { SubsetCount(a + b, Members(quorum)); }
    assert |a * b| == |a| + |b| - |a + b|;
    if a * b <= faulty {
      SubsetCount(a * b, faulty);
      assert false;
    }
    k :| k in a * b && k !in faulty;
  }

  /** The quorum-intersection argument needs a quorum: with none the majority is zero and no signature is needed. */
  lemma IntersectionHoldsExactlyForNonEmptyQuorums(quorum: seq<Key>)
    ensures quorum != [] <==>
            forall honest: set<Key>, a: set<Key>, b: set<Key> |
              |Members(quorum) - honest| <= MaxFaulty(|quorum|) && IsMajority(quorum, a) && IsMajority(quorum, b) ::
              a * b * honest != {}
  {
    if quorum == [] {
      var none: set<Key> := {};
      assert Members(quorum) - none == {};
      assert IsMajority(quorum, none);
      assert none * none * none == {};
    } else {
      forall honest: set<Key>, a: set<Key>, b: set<Key> |
        |Members(quorum) - honest| <= MaxFaulty(|quorum|) && IsMajority(quorum, a) && IsMajority(quorum, b)
        ensures a * b * honest != {}
      {
        var k := MajoritiesShareHonestMember(quorum, honest, a, b);
        assert k in a * b * honest;
      }
    }
  }

  // ---------------------------------------------------------------------------------------------
  // What can be aggregated
  // ---------------------------------------------------------------------------------------------

  type Issued = set<(Key, Payload)>

  /** No signature of an honest key occurs unless that key issued it. */
  predicate Unforged(signatures: Signatures, honest: set<Key>, issued: Issued) {
    forall k | k in signatures && signatures[k].SignedBy? && signatures[k].signer in honest ::
      (signatures[k].signer, signatures[k].payload) in issued
  }

  /** The quorum members whose signature over the payload can be shown: the faulty ones and those who signed. */
  function Supporters(quorum: seq<Key>, honest: set<Key>, issued: Issued, payload: Payload): set<Key> {
    set k | k in Members(quorum) && (k in honest ==> (k, payload) in issued)
  }

  predicate Backed(quorum: seq<Key>, honest: set<Key>, issued: Issued, payload: Payload) {
    IsMajority(quorum, Supporters(quorum, honest, issued, payload))
  }

  predicate VerifyAggregate(signatures: Signatures, quorum: seq<Key>, payload: Payload) {
    |VerifiedSigners(signatures, Members(quorum), payload)| >= Majority(|quorum|)
  }

  lemma VerifiedImpliesBacked(
      signatures: Signatures, quorum: seq<Key>, honest: set<Key>, issued: Issued, payload: Payload)
    requires Unforged(signatures, honest, issued)
    requires VerifyAggregate(signatures, quorum, payload)
    ensures Backed(quorum, honest, issued, payload)
  {
    SubsetCount(VerifiedSigners(signatures, Members(quorum), payload), Supporters(quorum, honest, issued, payload));
  }

  /** A payload can be shown with enough genuine signatures exactly when a majority stands behind it. */
  lemma AggregateExistsIffBacked(quorum: seq<Key>, honest: set<Key>, issued: Issued, payload: Payload)
    ensures Backed(quorum, honest, issued, payload) <==>
            exists signatures: Signatures ::
              Unforged(signatures, honest, issued) && VerifyAggregate(signatures, quorum, payload)
  {
    if Backed(quorum, honest, issued, payload) {
      var supporters := Supporters(quorum, honest, issued, payload);
      var signatures: Signatures := map k | k in supporters :: SignedBy(k, payload);
      assert VerifiedSigners(signatures, Members(quorum), payload) == supporters;
      assert Unforged(signatures, honest, issued) && VerifyAggregate(signatures, quorum, payload);
    }
    if signatures: Signatures :| Unforged(signatures, honest, issued) && VerifyAggregate(signatures, quorum, payload) {
      VerifiedImpliesBacked(signatures, quorum, honest, issued, payload);
    }
  }

  lemma BackedMonotone(quorum: seq<Key>, honest: set<Key>, issued: Issued, later: Issued, payload: Payload)
    requires issued <= later
    requires Backed(quorum, honest, issued, payload)
    ensures Backed(quorum, honest, later, payload)
  {
    SubsetCount(Supporters(quorum, honest, issued, payload), Supporters(quorum, honest, later, payload));
  }

  /** Some honest member signed what a majority stands behind. */
  lemma BackedHasHonestSigner(quorum: seq<Key>, honest: set<Key>, issued: Issued, payload: Payload) returns (k: Key)
    requires MostlyHonest(quorum, honest)
    requires Backed(quorum, honest, issued, payload)
    ensures k in honest && k in quorum && (k, payload) in issued
  {
    var s := Supporters(quorum, honest, issued, payload);
    k := MajoritiesShareHonestMember(quorum, honest, s, s);
  }

  /** One honest member signed both of two payloads that majorities stand behind. */
  lemma BackedPairHasCommonSigner(quorum: seq<Key>, honest: set<Key>, issued: Issued, p: Payload, q: Payload)
    returns (k: Key)
    requires MostlyHonest(quorum, honest)
    requires Backed(quorum, honest, issued, p) && Backed(quorum, honest, issued, q)
    ensures k in honest && (k, p) in issued && (k, q) in issued
  {
    k := MajoritiesShareHonestMember(quorum, honest, Supporters(quorum, honest, issued, p),
      Supporters(quorum, honest, issued, q));
  }
}
