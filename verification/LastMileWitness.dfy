/** A concrete world and run of two sequencers: the hypotheses of the agreement results hold of it, a height is mapped
by both, and the persisted tracker of one goes back, epoch and height, after a fast-forward that was cut short. */
module LastMileWitness {
  import opened Wrappers
  import opened Signatures
  import Voting
  import opened VotingSafety
  import opened Sequencing
  import opened LastMile
  import opened LastMileAgreement
  import opened PersistedTracker

  // ---------------------------------------------------------------------------------------------
  // Epoch 0: two blocks of one leader, sealed at the second
  // ---------------------------------------------------------------------------------------------

  const FIRST := BlockId(0, "v", 0)
  const SECOND := BlockId(0, "v", 1)
  const SECOND_BLOCK := Voting.Block("v", 1, EpochRef("epoch", 0), "b1", true)
  const SECOND_VOTE := AfpVote("b0", SECOND, "b1", EpochRef("epoch", 0))
  const SECOND_AFP := Voting.Afp("b0", SECOND, "b1", map["v" := SignedBy("v", SECOND_VOTE)])
  const SEAL := Voting.VotingStat(1, "b1", SECOND_AFP)

  const VOTED_ONCE := Voting.FRESH.(
    votes := map[FIRST := "b0"], blocks := map[FIRST := SOLO_BLOCK], stats := map["v" := Voting.TEMPLATE])
  const VOTED_TWICE := VOTED_ONCE.(
    votes := VOTED_ONCE.votes[SECOND := "b1"], blocks := VOTED_ONCE.blocks[SECOND := SECOND_BLOCK],
    afps := VOTED_ONCE.afps[FIRST := SOLO_AFP],
    stats := VOTED_ONCE.stats["v" := Voting.VotingStat(0, "b0", SOLO_AFP)])

  /** The only member votes for both blocks, finishes the epoch and signs the second block as the last one. */
  function TwoBlockRun(): (run: seq<Voting.Network>)
    ensures |run| == 5
  {
    var votes := {("v", SOLO_VOTE), ("v", SECOND_VOTE)};
    [
      Voting.Network(map["v" := Voting.FRESH], {}),
      Voting.Network(map["v" := VOTED_ONCE], {("v", SOLO_VOTE)}),
      Voting.Network(map["v" := VOTED_TWICE], votes),
      Voting.Network(map["v" := VOTED_TWICE.(finished := true)], votes),
      Voting.Network(map["v" := VOTED_TWICE.(finished := true)], votes + {("v", EndAt(1, "b1"))})
    ]
  }

  lemma VotingStep(before: Voting.Network, a: Voting.Action, after: Voting.Network)
    requires "v" in before.members && Voting.Possible(before, a) && after == Voting.Apply(SOLO, before, "v", a)
    ensures Voting.IsStep(SOLO, before, after)
  {
  }

  lemma FirstVoteIsStep()
    ensures Voting.IsStep(SOLO, TwoBlockRun()[0], TwoBlockRun()[1])
  {
    var a := Voting.HandleVote(Voting.VoteRequest(SOLO_BLOCK, Voting.EMPTY_AFP));
    assert Voting.Vote(SOLO, Voting.FRESH, a.vote) == (VOTED_ONCE, Some(SOLO_VOTE));
    VotingStep(TwoBlockRun()[0], a, TwoBlockRun()[1]);
  }

  lemma SecondVoteIsStep()
    ensures Voting.IsStep(SOLO, TwoBlockRun()[1], TwoBlockRun()[2])
  {
    var a := Voting.HandleVote(Voting.VoteRequest(SECOND_BLOCK, SOLO_AFP));
    SoloProofVerifies(SOLO_VOTE);
    assert Voting.Vote(SOLO, VOTED_ONCE, a.vote) == (VOTED_TWICE, Some(SECOND_VOTE));
    VotingStep(TwoBlockRun()[1], a, TwoBlockRun()[2]);
  }

  lemma FinishIsStep()
    ensures Voting.IsStep(SOLO, TwoBlockRun()[2], TwoBlockRun()[3])
  {
    VotingStep(TwoBlockRun()[2], Voting.RaiseFinish, TwoBlockRun()[3]);
  }

  lemma EndIsStep()
    ensures Voting.IsStep(SOLO, TwoBlockRun()[3], TwoBlockRun()[4])
  {
    var a := Voting.HandleEnd(Voting.EndRequest(0, SEAL));
    SoloProofVerifies(SECOND_VOTE);
    assert Voting.SignLeaderEnd(SOLO, VOTED_TWICE.(finished := true), a.end) == Voting.Ok(EndAt(1, "b1"));
    VotingStep(TwoBlockRun()[3], a, TwoBlockRun()[4]);
  }

  lemma TwoBlockRunIsARun()
    ensures Voting.IsRun(SOLO, TwoBlockRun())
  {
    FirstVoteIsStep();
    SecondVoteIsStep();
    FinishIsStep();
    EndIsStep();
  }

  lemma SealIsShown()
    ensures AlfpShown(SOLO, TwoBlockRun()[4], AlfpAt(SEAL))
  {
    SoloProofVerifies(SECOND_VOTE);
    SoloProofVerifies(EndAt(1, "b1"));
  }

  // ---------------------------------------------------------------------------------------------
  // The world
  // ---------------------------------------------------------------------------------------------

  /** Epoch 0 is that run with its leader sealed at block 1; in the later epochs nothing has happened. */
  function SoloWorld(): World {
    World(
      e => Voting.Epoch(e, "epoch", ["v"], ["v"]),
      e => if e == 0 then TwoBlockRun() else [Voting.Network(map["v" := Voting.FRESH], {})],
      e => if e == 0 then map["v" := AlfpAt(SEAL)] else map[])
  }

  lemma SoloQuorumHonest(honest: set<Key>)
    requires "v" in honest
    ensures MostlyHonest(["v"], honest)
  {
    assert Members(["v"]) - honest == {};
  }

  lemma FirstEpochOk()
    ensures EpochOk(SoloWorld(), 0)
  {
    var w := SoloWorld();
    TwoBlockRunIsARun();
    SealIsShown();
    SoloQuorumHonest({"v"});
    assert w.epoch(0) == SOLO && w.run(0)[0].Honest() == {"v"};
    assert AlfpShown(w.epoch(0), w.run(0)[4], w.alfps(0)["v"]);
  }

  lemma LaterEpochOk(e: nat)
    requires e > 0
    ensures EpochOk(SoloWorld(), e)
  {
    SoloQuorumHonest({"v"});
    assert SoloWorld().run(e)[0].Honest() == {"v"};
  }

  lemma SoloWorldOk()
    ensures WorldOk(SoloWorld())
  {
    forall e: nat
      ensures EpochOk(SoloWorld(), e)
    {
      if e == 0 {
        FirstEpochOk();
      } else {
        LaterEpochOk(e);
      }
    }
  }

  // ---------------------------------------------------------------------------------------------
  // The run of the sequencers
  // ---------------------------------------------------------------------------------------------

  /** The first block, confirmed by the AFP of the second. */
  function FirstView(approvementEpoch: int): View {
    View(approvementEpoch, map[], map[0 := Handler(SOLO, 0)], map[], map[], map[FIRST := "b0"], map[],
      map[SECOND := SECOND_AFP])
  }

  /** The second block, confirmed by the alignment entry, with the handler past the leader. */
  function SecondView(): View {
    var sealed := map["v" := Sealed(1, "b1")];
    View(0, map[], map[0 := Handler(SOLO, 1)], sealed, sealed, map[SECOND := "b1"], map[], map[])
  }

  const ROTATION := RotationProof(0, 1, "d", "d", 1, SECOND, "b1", map[])
  const ROTATION_SIGNED := ("v", ROTATION.ToSign())

  /** Catching up to epoch 2 with the proof of epoch 0 only. */
  function CutShortView(): View {
    View(2, map[0 := ROTATION.(proofs := map["v" := SignedBy("v", ROTATION.ToSign())])], map[], map[], map[], map[],
      map[], map[])
  }

  const ONE_MAPPED := Store(Tracker(0, 0, 1, 1, 1), Tracker(0, 0, 1, 1, 1), map[0 := FIRST], map[0 := 0], map[])

  const BOTH_MAPPED := Store(
    Tracker(0, 1, 0, 2, 2), Tracker(0, 1, 0, 2, 2), map[0 := FIRST, 1 := SECOND], map[0 := 0, 1 := 1],
    map[0 := NewBoundary(0, 1, SECOND, "b1")])

  const CUT_SHORT := EMPTY_STORE.(stored := Tracker(1, 0, 0, 2, 0),
    boundaries := map[0 := NewBoundary(0, 1, SECOND, "b1")])

  const GONE_BACK := ONE_MAPPED.(boundaries := CUT_SHORT.boundaries)

  /** "v" sequences both blocks, which ends epoch 0, and signs the rotation; "w" catches up half-way and
  sequences on. */
  function SequencersRun(): (run: seq<Sequencers>)
    ensures |run| == 6
  {
    [
      Sequencers(map["v" := EMPTY_STORE, "w" := EMPTY_STORE], {}),
      Sequencers(map["v" := ONE_MAPPED, "w" := EMPTY_STORE], {}),
      Sequencers(map["v" := BOTH_MAPPED, "w" := EMPTY_STORE], {}),
      Sequencers(map["v" := BOTH_MAPPED, "w" := EMPTY_STORE], {ROTATION_SIGNED}),
      Sequencers(map["v" := BOTH_MAPPED, "w" := CUT_SHORT], {ROTATION_SIGNED}),
      Sequencers(map["v" := BOTH_MAPPED, "w" := GONE_BACK], {ROTATION_SIGNED})
    ]
  }

  lemma FirstTurn(s: Store, approvementEpoch: int)
    requires s.tracker == START && s.heights == map[] && s.inEpoch == map[]
    requires approvementEpoch <= 0 || approvementEpoch == 2
    ensures Turn(s, FirstView(approvementEpoch)) == ONE_MAPPED.(boundaries := s.boundaries)
  {
    SoloProofVerifies(SECOND_VOTE);
    assert !SyncToEpochStart(s, FirstView(approvementEpoch)).1;
    assert Confirmed(s, FirstView(approvementEpoch), Handler(SOLO, 0), "v", "b0") == (true, false);
  }

  lemma SecondTurn()
    ensures Turn(ONE_MAPPED, SecondView()) == BOTH_MAPPED
  {
    assert Confirmed(ONE_MAPPED, SecondView(), Handler(SOLO, 1), "v", "b1") == (true, true);
  }

  lemma CutShortTurn()
    ensures Turn(EMPTY_STORE, CutShortView()) == CUT_SHORT
  {
  }

  lemma SomeStep(before: Sequencers, k: Key, a: Action, after: Sequencers)
    requires k in before.nodes && Possible(SoloWorld(), before, k, a) && after == Apply(before, k, a)
    ensures IsStep(SoloWorld(), before, after)
  {
  }

  lemma SecondAfpShown()
    ensures AfpShownInRun(SoloWorld(), 0, SECOND_AFP)
  {
    SoloProofVerifies(SECOND_VOTE);
    assert AfpShown(SoloWorld().epoch(0), SoloWorld().run(0)[4], SECOND_AFP);
  }

  lemma FirstViewOk(net: Sequencers, s: Store, approvementEpoch: int)
    requires s.tracker == START
    ensures ViewOk(SoloWorld(), net, s, FirstView(approvementEpoch))
  {
    SecondAfpShown();
  }

  lemma SecondViewOk(net: Sequencers)
    ensures ViewOk(SoloWorld(), net, ONE_MAPPED, SecondView())
  {
  }

  lemma CutShortViewOk(net: Sequencers)
    requires net.issued == {ROTATION_SIGNED}
    ensures ViewOk(SoloWorld(), net, EMPTY_STORE, CutShortView())
  {
    SoloProofVerifies(ROTATION.ToSign());
  }

  lemma FirstTurnIsStep()
    ensures StepAt(SoloWorld(), SequencersRun(), 1)
  {
    FirstTurn(EMPTY_STORE, 0);
    FirstViewOk(SequencersRun()[0], EMPTY_STORE, 0);
    SomeStep(SequencersRun()[0], "v", TakeTurn(FirstView(0)), SequencersRun()[1]);
  }

  lemma SecondTurnIsStep()
    ensures StepAt(SoloWorld(), SequencersRun(), 2)
  {
    SecondTurn();
    SecondViewOk(SequencersRun()[1]);
    SomeStep(SequencersRun()[1], "v", TakeTurn(SecondView()), SequencersRun()[2]);
  }

  lemma SigningIsStep()
    ensures StepAt(SoloWorld(), SequencersRun(), 3)
  {
    assert RotationAllowed(BOTH_MAPPED, ROTATION, true, Some("d"));
    SomeStep(SequencersRun()[2], "v", SignRotation(ROTATION, true, Some("d")), SequencersRun()[3]);
  }

  lemma CutShortTurnIsStep()
    ensures StepAt(SoloWorld(), SequencersRun(), 4)
  {
    CutShortTurn();
    CutShortViewOk(SequencersRun()[3]);
    SomeStep(SequencersRun()[3], "w", TakeTurn(CutShortView()), SequencersRun()[4]);
  }

  lemma LastTurnIsStep()
    ensures StepAt(SoloWorld(), SequencersRun(), 5)
  {
    FirstTurn(CUT_SHORT, 2);
    FirstViewOk(SequencersRun()[4], CUT_SHORT, 2);
    SomeStep(SequencersRun()[4], "w", TakeTurn(FirstView(2)), SequencersRun()[5]);
  }

  lemma EveryStepIsAStep(i: nat)
    requires 0 < i < 6
    ensures StepAt(SoloWorld(), SequencersRun(), i)
  {
    if i == 1 {
      FirstTurnIsStep();
    } else if i == 2 {
      SecondTurnIsStep();
    } else if i == 3 {
      SigningIsStep();
    } else if i == 4 {
      CutShortTurnIsStep();
    } else {
      LastTurnIsStep();
    }
  }

  lemma RunIsARun()
    ensures IsRun(SoloWorld(), SequencersRun())
  {
    forall i | 0 < i < 6
      ensures StepAt(SoloWorld(), SequencersRun(), i)
    {
      EveryStepIsAStep(i);
    }
  }

  /** The hypotheses of the agreement results hold of this world and run, in which both sequencers map height 0. */
  lemma SharedHeightIsReached()
    ensures var w, run := SoloWorld(), SequencersRun();
            && WorldOk(w) && IsRun(w, run) && HonestQuorums(w, run[0])
            && 0 in run[5].nodes["v"].heights && 0 in run[5].nodes["w"].heights
  {
    SoloWorldOk();
    RunIsARun();
    SoloQuorumHonest(SequencersRun()[0].Honest());
  }

  /** In the same run the persisted tracker of "w" goes back: from epoch 1 to epoch 0, and from next height 2 to 1. */
  lemma StoredTrackerCanGoBack()
    ensures var run := SequencersRun(); var before, after := run[4].nodes["w"].stored, run[5].nodes["w"].stored;
            && IsRun(SoloWorld(), run)
            && before.epoch == 1 && after.epoch == 0 && before.nextHeight == 2 && after.nextHeight == 1
  {
    RunIsARun();
  }
}
