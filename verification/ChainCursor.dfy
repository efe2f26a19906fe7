/** The chain cursor: local heights of the current network era, absolute heights in the store, and the steps between
eras. A block index entry is written under the absolute height of every executed block. */
module ChainCursor {
  import opened Wrappers

  /** Lifetime and per-epoch statistics, as far as heights go. */
  datatype Statistics = Statistics(lastHeight: int, blocksGenerated: nat)

  const NO_STATISTICS := Statistics(-1, 0)

  datatype Cursor = Cursor(
    heightOffset: int,
    epochOffset: int,
    localHeight: int,
    networkId: string,
    epochId: int,
    statistics: Option<Statistics>,
    epochStatistics: Option<Statistics>)

  /** A scheduled move to a new network; `usable` says that its genesis gives a quorum and leaders. */
  datatype Plan = Plan(lastAbsoluteHeight: int, lastEpochIndex: int, networkId: string, usable: bool)

  /** What one batch writes: the cursor and the entries of the store that depend on it. */
  datatype Store = Store(cursor: Cursor, blockIndex: map<int, string>, epochStats: map<int, Statistics>,
    epochData: set<int>)

  function StatisticsOf(s: Option<Statistics>): Statistics {
    if s.Some? then s.value else NO_STATISTICS
  }

  function AbsoluteHeight(c: Cursor, localHeight: int): int {
    localHeight + c.heightOffset
  }

  function AbsoluteEpoch(c: Cursor, localEpoch: int): int {
    localEpoch + c.epochOffset
  }

  // ---------------------------------------------------------------------------------------------
  // Steps
  // ---------------------------------------------------------------------------------------------

  /** The plan is applied by the block that reaches its height. */
  predicate Reaches(c: Cursor, plan: Option<Plan>) {
    plan.Some? && StatisticsOf(c.statistics).lastHeight + 1 == plan.value.lastAbsoluteHeight
  }

  function AfterRecovery(s: Store, p: Plan): Store {
    var c := s.cursor;
    var next := Cursor(p.lastAbsoluteHeight + 1, p.lastEpochIndex + 1, -1, p.networkId, 0, c.statistics,
      Some(NO_STATISTICS));
    Store(next, s.blockIndex, s.epochStats[p.lastEpochIndex := StatisticsOf(c.epochStatistics)],
      s.epochData + {p.lastEpochIndex + 1})
  }

  function AfterBlock(s: Store, blockId: string): Store {
    var c := s.cursor;
    var total, inEpoch := StatisticsOf(c.statistics), StatisticsOf(c.epochStatistics);
    var next := c.(
      localHeight := c.localHeight + 1,
      statistics := Some(Statistics(total.lastHeight + 1, total.blocksGenerated + 1)),
      epochStatistics := Some(Statistics(c.localHeight + 1, inEpoch.blocksGenerated + 1)));
    s.(cursor := next, blockIndex := s.blockIndex[AbsoluteHeight(c, c.localHeight + 1) := blockId])
  }

  function AfterRotation(s: Store): Store {
    var c := s.cursor;
    Store(
      c.(epochId := c.epochId + 1, epochStatistics := Some(NO_STATISTICS)),
      s.blockIndex,
      s.epochStats[AbsoluteEpoch(c, c.epochId) := StatisticsOf(c.epochStatistics)],
      s.epochData + {AbsoluteEpoch(c, c.epochId + 1)})
  }

  datatype Action = ExecuteBlock(blockId: string) | RotateEpoch | LoadPlan(plan: Option<Plan>)

  datatype Chain = Chain(store: Store, plan: Option<Plan>)

  /** A block that reaches an unusable plan stops the node before anything is written. */
  function Apply(s: Chain, a: Action): Chain {
    match a
    case ExecuteBlock(blockId) =>
      if !Reaches(s.store.cursor, s.plan) then s.(store := AfterBlock(s.store, blockId))
      else if !s.plan.value.usable then s
      else Chain(AfterRecovery(AfterBlock(s.store, blockId), s.plan.value), None)
    case RotateEpoch => s.(store := AfterRotation(s.store))
    case LoadPlan(plan) => s.(plan := plan)
  }

  function After(s: Chain, actions: seq<Action>): Chain {
    if actions == [] then s else Apply(After(s, actions[..|actions| - 1]), actions[|actions| - 1])
  }

  // ---------------------------------------------------------------------------------------------
  // Heights
  // ---------------------------------------------------------------------------------------------

  /** The last absolute height is the last local one moved by the offset. */
  predicate InStep(c: Cursor) {
    StatisticsOf(c.statistics).lastHeight == c.localHeight + c.heightOffset
  }

  function LastHeight(s: Chain): int {
    StatisticsOf(s.store.cursor.statistics).lastHeight
  }

  /** The block index covers the heights 0, ..., last, and nothing else. */
  ghost predicate Indexed(s: Store) {
    var last := StatisticsOf(s.cursor.statistics).lastHeight;
    last >= -1 && forall h :: h in s.blockIndex <==> 0 <= h <= last
  }

  ghost predicate Good(s: Chain) {
    InStep(s.store.cursor) && Indexed(s.store)
  }

  /** Each step keeps heights in step; only executing a block adds to the index, and it adds the next
  absolute height. */
  lemma StepKeepsHeights(s: Chain, a: Action)
    requires Good(s)
    ensures Good(Apply(s, a))
    ensures Apply(s, a).store.blockIndex == s.store.blockIndex
            || (a.ExecuteBlock? && LastHeight(s) + 1 !in s.store.blockIndex
              && Apply(s, a).store.blockIndex == s.store.blockIndex[LastHeight(s) + 1 := a.blockId])
  {
  }

  /** Over any run: the equation holds, the index has no gap, and no entry is ever rewritten. */
  lemma {:induction false} RunKeepsHeights(s: Chain, actions: seq<Action>)
    requires Good(s)
    ensures Good(After(s, actions))
    ensures forall h | h in s.store.blockIndex ::
            h in After(s, actions).store.blockIndex && After(s, actions).store.blockIndex[h] == s.store.blockIndex[h]
    ensures LastHeight(After(s, actions)) == |After(s, actions).store.blockIndex| + LastHeight(s) - |s.store.blockIndex|
  {
    if actions != [] {
      RunKeepsHeights(s, actions[..|actions| - 1]);
      StepKeepsHeights(After(s, actions[..|actions| - 1]), actions[|actions| - 1]);
    }
  }

  // ---------------------------------------------------------------------------------------------
  // Epochs
  // ---------------------------------------------------------------------------------------------

  function CurrentEpoch(s: Chain): int {
    AbsoluteEpoch(s.store.cursor, s.store.cursor.epochId)
  }

  /** The finished epochs have their statistics stored, and the current one has not. */
  ghost predicate EpochsIndexed(s: Chain) {
    CurrentEpoch(s) >= 0 && forall e :: e in s.store.epochStats <==> 0 <= e < CurrentEpoch(s)
  }

  predicate Recovers(s: Chain, a: Action) {
    a.ExecuteBlock? && Reaches(s.store.cursor, s.plan) && s.plan.value.usable
  }

  /** The step ends the current epoch: its statistics are stored, earlier ones stay, and the next epoch is the
  next number. */
  ghost predicate EndsEpoch(s: Chain, a: Action) {
    var after := Apply(s, a);
    && EpochsIndexed(after) && CurrentEpoch(after) == CurrentEpoch(s) + 1
       && CurrentEpoch(after) in after.store.epochData
    && forall e | e in s.store.epochStats :: after.store.epochStats[e] == s.store.epochStats[e]
  }

  /** Epoch records are gap-free and written once per absolute epoch, as long as each recovery names the epoch in which
  it happens; and a recovery that names another one breaks this. */
  lemma StepKeepsEpochs(s: Chain, a: Action)
    requires EpochsIndexed(s)
    ensures a.RotateEpoch? ==> EndsEpoch(s, a)
    ensures Recovers(s, a) ==> (EndsEpoch(s, a) <==> s.plan.value.lastEpochIndex == CurrentEpoch(s))
    ensures !a.RotateEpoch? && !Recovers(s, a) ==>
              Apply(s, a).store.epochStats == s.store.epochStats && CurrentEpoch(Apply(s, a)) == CurrentEpoch(s)
  {
  }

  /** Every recovery of the run names the absolute epoch in which it happens. */
  ghost predicate RecoversOnPlan(s: Chain, actions: seq<Action>) {
    forall i | 0 <= i < |actions| ::
      var before := After(s, actions[..i]);
        Recovers(before, actions[i]) ==> before.plan.value.lastEpochIndex == CurrentEpoch(before)
  }

  /** Over any such run, across rotations and recoveries, epoch records have no gap and are never rewritten. */
  lemma {:induction false} RunKeepsEpochs(s: Chain, actions: seq<Action>)
    requires EpochsIndexed(s) && RecoversOnPlan(s, actions)
    ensures EpochsIndexed(After(s, actions)) && CurrentEpoch(s) <= CurrentEpoch(After(s, actions))
    ensures forall e | e in s.store.epochStats :: After(s, actions).store.epochStats[e] == s.store.epochStats[e]
  {
    if actions != [] {
      var front := actions[..|actions| - 1];
      assert RecoversOnPlan(s, front) by {
        assert forall i | 0 <= i < |front| :: front[..i] == actions[..i] && front[i] == actions[i];
      }
      RunKeepsEpochs(s, front);
      assert Recovers(After(s, front), actions[|actions| - 1]) ==>
        After(s, front).plan.value.lastEpochIndex == CurrentEpoch(After(s, front));
      StepKeepsEpochs(After(s, front), actions[|actions| - 1]);
    }
  }

  // ---------------------------------------------------------------------------------------------
  // Counts and eras
  // ---------------------------------------------------------------------------------------------

  /** The blocks that the records of the epochs below n count. */
  ghost function CountedBelow(epochStats: map<int, Statistics>, n: int): int
    decreases n
  {
    if n <= 0 then 0
    else CountedBelow(epochStats, n - 1) + if n - 1 in epochStats then epochStats[n - 1].blocksGenerated else 0
  }

  /** The lifetime count less what the finished epochs and the current one count. */
  ghost function Uncounted(s: Chain): int {
    StatisticsOf(s.store.cursor.statistics).blocksGenerated
    - CountedBelow(s.store.epochStats, CurrentEpoch(s)) - StatisticsOf(s.store.cursor.epochStatistics).blocksGenerated
  }

  lemma {:induction false} CountedAfterUpdate(
      epochStats: map<int, Statistics>, e: int, value: Statistics, n: int)
    requires n <= e
    ensures CountedBelow(epochStats[e := value], n) == CountedBelow(epochStats, n)
    decreases n
  {
    if n > 0 {
      CountedAfterUpdate(epochStats, e, value, n - 1);
    }
  }

  lemma StepKeepsCounts(s: Chain, a: Action)
    requires EpochsIndexed(s)
    requires Recovers(s, a) ==> s.plan.value.lastEpochIndex == CurrentEpoch(s)
    ensures Uncounted(Apply(s, a)) == Uncounted(s)
  {
    var e := CurrentEpoch(s);
    if Recovers(s, a) {
      CountedAfterUpdate(s.store.epochStats, e, Apply(s, a).store.epochStats[e], e);
    } else if a.RotateEpoch? {
      CountedAfterUpdate(s.store.epochStats, e, StatisticsOf(s.store.cursor.epochStatistics), e);
    }
  }

  /** Over any such run, every block is counted once for the lifetime and once for the epoch in which it was executed:
  the counts of the epochs add up to that of the lifetime if they did at the start. */
  lemma {:induction false} RunKeepsCounts(s: Chain, actions: seq<Action>)
    requires EpochsIndexed(s) && RecoversOnPlan(s, actions)
    ensures Uncounted(After(s, actions)) == Uncounted(s)
  {
    if actions != [] {
      var front := actions[..|actions| - 1];
      assert RecoversOnPlan(s, front) by {
        assert forall i | 0 <= i < |front| :: front[..i] == actions[..i] && front[i] == actions[i];
      }
      RunKeepsEpochs(s, front);
      RunKeepsCounts(s, front);
      assert Recovers(After(s, front), actions[|actions| - 1]) ==>
        After(s, front).plan.value.lastEpochIndex == CurrentEpoch(After(s, front));
      StepKeepsCounts(After(s, front), actions[|actions| - 1]);
    }
  }

  /** The lifetime count grows by one with each block that adds to the index. */
  lemma {:induction false} BlocksCounted(s: Chain, actions: seq<Action>)
    requires Good(s)
    ensures StatisticsOf(After(s, actions).store.cursor.statistics).blocksGenerated - LastHeight(After(s, actions)) ==
            StatisticsOf(s.store.cursor.statistics).blocksGenerated - LastHeight(s)
  {
    if actions != [] {
      BlocksCounted(s, actions[..|actions| - 1]);
    }
  }

  /** An epoch that has a block ends at the local height of the last one. */
  predicate EpochHeightInStep(c: Cursor) {
    var inEpoch := StatisticsOf(c.epochStatistics);
    inEpoch.lastHeight == if inEpoch.blocksGenerated > 0 then c.localHeight else -1
  }

  /** Over any run the statistics of the current epoch name its last local height, or none while it is empty. */
  lemma {:induction false} RunKeepsEpochHeights(s: Chain, actions: seq<Action>)
    requires EpochHeightInStep(s.store.cursor)
    ensures EpochHeightInStep(After(s, actions).store.cursor)
  {
    if actions != [] {
      RunKeepsEpochHeights(s, actions[..|actions| - 1]);
    }
  }

  /** What is stored of an epoch that ends is what it has counted: at a rotation as it stands, at a recovery with the
  block that reaches the plan. The next epoch starts to count anew, and the lifetime statistics go on. */
  lemma FinishedEpochIsStored(s: Chain, a: Action)
    requires EpochsIndexed(s)
    ensures var after, inEpoch := Apply(s, a), StatisticsOf(s.store.cursor.epochStatistics);
            && (a.RotateEpoch? ==>
                 && after.store.epochStats[CurrentEpoch(s)] == inEpoch
                 && after.store.cursor.statistics == s.store.cursor.statistics)
            && (Recovers(s, a) ==>
                 after.store.epochStats[s.plan.value.lastEpochIndex] ==
                 Statistics(s.store.cursor.localHeight + 1, inEpoch.blocksGenerated + 1))
            && (a.RotateEpoch? || Recovers(s, a) ==>
                 StatisticsOf(after.store.cursor.epochStatistics) == Statistics(-1, 0))
  {
  }

  /** A recovery starts the plan's network, in epoch and at height zero of its own: the next block gets the absolute
  height after the plan's, and the epoch the absolute number after the plan's. Nothing else starts a network. */
  lemma RecoveryStarts(s: Chain, a: Action, blockId: string)
    requires Good(s)
    ensures Recovers(s, a) ==>
              var started := Apply(s, a);
              var first := Apply(started, ExecuteBlock(blockId));
              && started.plan.None? && started.store.cursor.networkId == s.plan.value.networkId
              && CurrentEpoch(started) == s.plan.value.lastEpochIndex + 1
              && LastHeight(started) == s.plan.value.lastAbsoluteHeight
              && first.store.cursor.localHeight == 0 && first.store.cursor.epochId == 0
              && first.store.blockIndex == started.store.blockIndex[s.plan.value.lastAbsoluteHeight + 1 := blockId]
    ensures !Recovers(s, a) ==>
              && Apply(s, a).store.cursor.networkId == s.store.cursor.networkId
              && Apply(s, a).store.cursor.heightOffset == s.store.cursor.heightOffset
              && Apply(s, a).store.cursor.epochOffset == s.store.cursor.epochOffset
  {
  }

  // ---------------------------------------------------------------------------------------------
  // The stored cursor
  // ---------------------------------------------------------------------------------------------

  /** The stored form; older ones have no local height. */
  datatype Raw = Raw(
    heightOffset: int,
    epochOffset: int,
    localHeight: Option<int>,
    networkId: string,
    epochId: int,
    statistics: Option<Statistics>,
    epochStatistics: Option<Statistics>)

  function Encode(c: Cursor): Raw {
    Raw(c.heightOffset, c.epochOffset, Some(c.localHeight), c.networkId, c.epochId, c.statistics, c.epochStatistics)
  }

  function Decode(r: Raw): Cursor {
    var computed := if r.statistics.None? then -1 else r.statistics.value.lastHeight - r.heightOffset;
    var localHeight := if r.localHeight.Some? then r.localHeight.value else if computed < -1 then -1 else computed;
    Cursor(r.heightOffset, r.epochOffset, localHeight, r.networkId, r.epochId, r.statistics, r.epochStatistics)
  }

  lemma DecodeInvertsEncode(c: Cursor)
    ensures Decode(Encode(c)) == c
  {
  }

  /** A stored cursor without a local height is restored in step exactly when its era had begun by then. */
  lemma LegacyDecodeInStepIff(r: Raw)
    requires r.localHeight.None?
    ensures InStep(Decode(r)) <==>
            if r.statistics.Some? then r.statistics.value.lastHeight >= r.heightOffset - 1 else r.heightOffset == 0
  {
  }

  /** Dropping the local height from a cursor in step, as older versions stored it, loses nothing. */
  lemma LegacyRoundTrip(c: Cursor)
    requires InStep(c) && c.localHeight >= -1 && c.statistics.Some?
    ensures Decode(Encode(c).(localHeight := None)) == c
  {
  }

  /** A restart from a new genesis resets the local height; the offset is the operator's. */
  function Restarted(c: Cursor, networkId: string, firstLaunch: bool): Cursor {
    c.(
      localHeight := -1,
      networkId := networkId,
      epochId := 0,
      statistics := if firstLaunch then Some(NO_STATISTICS) else c.statistics,
      epochStatistics := Some(NO_STATISTICS))
  }

  /** A restart is in step exactly when the offset starts right after the last absolute height. */
  lemma RestartInStepIff(c: Cursor, networkId: string, firstLaunch: bool)
    ensures InStep(Restarted(c, networkId, firstLaunch)) <==>
            c.heightOffset == 1 + if firstLaunch then -1 else StatisticsOf(c.statistics).lastHeight
  {
  }

  // ---------------------------------------------------------------------------------------------
  // The execution thread's metadata
  // ---------------------------------------------------------------------------------------------

  class ExecutionMetadata {
    var heightOffset: int
    var epochOffset: int
    var localHeight: int
    var networkId: string
    var epochId: int
    var statistics: Option<Statistics>
    var epochStatistics: Option<Statistics>
    var plan: Option<Plan>
    /** What is in the store. */
    var store: Store

    function Current(): Cursor
      reads this
    {
      Cursor(heightOffset, epochOffset, localHeight, networkId, epochId, statistics, epochStatistics)
    }

    ghost predicate Saved()
      reads this
    {
      store.cursor == Current()
    }

    ghost function State(): Chain
      reads this
    {
      Chain(store, plan)
    }

    /** Loading at startup: decodes the stored cursor, with or without a local height. */
    constructor Load(
        raw: Raw, blockIndex: map<int, string>, epochStats: map<int, Statistics>, epochData: set<int>,
          plan: Option<Plan>)
      ensures Current() == Decode(raw) && this.plan == plan
              && store == Store(Decode(raw), blockIndex, epochStats, epochData)
    {
      heightOffset, epochOffset, networkId, epochId := raw.heightOffset, raw.epochOffset, raw.networkId, raw.epochId;
      statistics, epochStatistics := raw.statistics, raw.epochStatistics;
      if raw.localHeight.Some? {
        localHeight := raw.localHeight.value;
      } else if raw.statistics.Some? && raw.statistics.value.lastHeight - raw.heightOffset >= -1 {
        localHeight := raw.statistics.value.lastHeight - raw.heightOffset;
      } else {
        localHeight := -1;
      }
      this.plan := plan;
      store := Store(Decode(raw), blockIndex, epochStats, epochData);
    }

    /** Moves the cursor to the plan's network; the batch gets the records of the epoch that ends and of the one
    that starts. */
    method ApplyRecoveryTransition(batch: Store, p: Plan) returns (ok: bool, next: Store)
      requires statistics.Some? && epochStatistics.Some?
      modifies this
      ensures store == old(store) && plan == old(plan) && ok == p.usable
      ensures ok ==> next.(cursor := Current()) == AfterRecovery(batch.(cursor := old(Current())), p)
    {
      if !p.usable {
        return false, batch;
      }
      next := batch.(epochStats := batch.epochStats[p.lastEpochIndex := epochStatistics.value]);
      heightOffset := p.lastAbsoluteHeight + 1;
      epochOffset := p.lastEpochIndex + 1;
      localHeight := -1;
      networkId := p.networkId;
      epochId := 0;
      epochStatistics := Some(NO_STATISTICS);
      next := next.(epochData := next.epochData + {epochOffset});
      ok := true;
    }

    /** Executes the next block; when it reaches the plan's height, the move to the new network is part of the batch.

    It fails, with nothing written, only when that plan cannot be used. */
    method ExecuteBlock(blockId: string) returns (ok: bool)
      requires Saved()
      modifies this
      ensures State() == Apply(old(State()), Action.ExecuteBlock(blockId))
      ensures ok <==> !(Reaches(old(Current()), old(plan)) && !old(plan).value.usable)
      ensures ok ==> Saved()
    {
      if statistics.None? {
        statistics := Some(NO_STATISTICS);
      }
      if epochStatistics.None? {
        epochStatistics := Some(NO_STATISTICS);
      }
      localHeight := localHeight + 1;
      statistics := Some(Statistics(statistics.value.lastHeight + 1, statistics.value.blocksGenerated + 1));
      epochStatistics := Some(Statistics(localHeight, epochStatistics.value.blocksGenerated + 1));
      var batch := store.(blockIndex := store.blockIndex[localHeight + heightOffset := blockId]);
      if plan.Some? && statistics.value.lastHeight == plan.value.lastAbsoluteHeight {
        ok, batch := ApplyRecoveryTransition(batch, plan.value);
        if !ok {
          return;
        }
        plan := None;
      }
      store := batch.(cursor := Current());
      ok := true;
    }

    method RotateEpoch()
      requires Saved()
      modifies this
      ensures State() == Apply(old(State()), Action.RotateEpoch) && Saved()
    {
      var finishing := if epochStatistics.Some? then epochStatistics.value else NO_STATISTICS;
      var batch := store.(
        epochStats := store.epochStats[epochId + epochOffset := finishing],
        epochData := store.epochData + {epochId + 1 + epochOffset});
      epochId := epochId + 1;
      epochStatistics := Some(NO_STATISTICS);
      store := batch.(cursor := Current());
    }
  }
}
