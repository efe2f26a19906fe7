/** The shared alignment record and the two threads that advance it: one walks the blocks of the current anchor, the
other learns where an anchor's chain ends. Both work from snapshots taken under the lock and check again when they
commit; the sequencer resets the record when it moves to another epoch. */
module AlignmentThreads {
  import opened Wrappers
  import opened AnchorSearch

  /** The record under the lock. */
  datatype Data = Data(epoch: int, anchor: nat, observed: int, leaders: map<string, Stats>, boundaries: map<nat, Stats>)

  function FreshData(epoch: int): Data {
    Data(epoch, 0, -1, map[], map[])
  }

  /** What the alignment thread carries between its critical sections. */
  datatype Snapshot = Snapshot(epoch: int, anchor: nat, observed: int, boundary: Option<Stats>)

  function BoundaryOf(d: Data): Option<Stats> {
    if d.anchor in d.boundaries then Some(d.boundaries[d.anchor]) else None
  }

  function TakeSnapshot(d: Data): Snapshot {
    Snapshot(d.epoch, d.anchor, d.observed, BoundaryOf(d))
  }

  predicate AtBoundary(v: Snapshot) {
    v.boundary.Some? && v.boundary.value.index <= v.observed
  }

  // ---------------------------------------------------------------------------------------------
  // Critical sections
  // ---------------------------------------------------------------------------------------------

  function Flip(d: Data, v: Snapshot): Data {
    if d.epoch == v.epoch && d.anchor == v.anchor && d.observed == v.observed then
      d.(anchor := d.anchor + 1, observed := -1)
    else d
  }

  /** The fetched anchor block: its hash, the leaders it seals, and whether the next block's proof finalizes it. */
  datatype Fetched = Fetched(hash: string, leaders: map<string, Stats>, finalized: bool)

  predicate MatchesBoundary(d: Data, f: Fetched) {
    BoundaryOf(d).Some? && BoundaryOf(d).value.index == d.observed && f.hash == BoundaryOf(d).value.hash
  }

  predicate Accepts(d: Data, v: Snapshot, f: Fetched) {
    d.epoch == v.epoch && d.anchor == v.anchor && (MatchesBoundary(d, f) || f.finalized)
  }

  /** New leaders are added; a leader that has an entry keeps it. */
  function CommitBlock(d: Data, v: Snapshot, f: Fetched): Data {
    if !Accepts(d, v, f) then d
    else
      d.(
        leaders := f.leaders + d.leaders,
        observed := if d.observed == v.observed then d.observed + 1 else d.observed)
  }

  function CommitRotation(d: Data, epoch: int, anchor: nat, stats: Stats): Data {
    if d.epoch != epoch || d.anchor != anchor || anchor in d.boundaries then d
    else
      d.(
        boundaries := d.boundaries[anchor := stats],
        observed := if d.observed < stats.index then stats.index else d.observed)
  }

  // ---------------------------------------------------------------------------------------------
  // The threads
  // ---------------------------------------------------------------------------------------------

  datatype Monitor = Resting | Chosen(epoch: int, anchor: nat) | Checked(epoch: int, anchor: nat)

  datatype System = System(data: Data, reader: Option<Snapshot>, monitor: Monitor)

  datatype Action =
    | ReadSnapshot
    | FlipAnchor
    | GiveUp
    | Commit(fetched: Fetched)
    | ChooseAnchor
    | CheckAnchor
    | DropAnchor
    | Record(foundIn: int, stats: Stats)
    | RotateEpoch(target: int)

  /** What can happen next: the reader flips at a boundary and fetches otherwise; the monitor records what it
  has checked. */
  predicate Enabled(s: System, a: Action, anchors: nat) {
    match a
    case ReadSnapshot => s.reader.None?
    case FlipAnchor => s.reader.Some? && AtBoundary(s.reader.value)
    case GiveUp => s.reader.Some? && !AtBoundary(s.reader.value)
    case Commit(_) => s.reader.Some? && !AtBoundary(s.reader.value)
    case ChooseAnchor => s.monitor.Resting?
    case CheckAnchor => s.monitor.Chosen?
    case DropAnchor => !s.monitor.Resting?
    case Record(foundIn, _) => s.monitor.Checked? && s.monitor.anchor < foundIn < anchors
    case RotateEpoch(target) => target > s.data.epoch
  }

  function Apply(s: System, a: Action, anchors: nat): System
    requires Enabled(s, a, anchors)
  {
    match a
    case ReadSnapshot => s.(reader := Some(TakeSnapshot(s.data)))
    case FlipAnchor => s.(data := Flip(s.data, s.reader.value), reader := None)
    case GiveUp => s.(reader := None)
    case Commit(fetched) => s.(data := CommitBlock(s.data, s.reader.value, fetched), reader := None)
    case ChooseAnchor => if s.data.anchor < anchors then s.(monitor := Chosen(s.data.epoch, s.data.anchor)) else s
    case CheckAnchor =>
      var m := s.monitor;
      if m.anchor in s.data.boundaries || s.data.anchor != m.anchor || s.data.epoch != m.epoch then
        s.(monitor := Resting)
      else s.(monitor := Checked(m.epoch, m.anchor))
    case DropAnchor => s.(monitor := Resting)
    case Record(_, stats) => s.(data := CommitRotation(s.data, s.monitor.epoch, s.monitor.anchor, stats),
      monitor := Resting)
    case RotateEpoch(target) => s.(data := FreshData(target))
  }

  ghost predicate IsStep(before: System, after: System, anchors: nat) {
    exists a :: Enabled(before, a, anchors) && after == Apply(before, a, anchors)
  }

  ghost predicate IsRun(run: seq<System>, anchors: nat) {
    && anchors > 0 && run != [] && (exists epoch :: run[0] == System(FreshData(epoch), None, Resting))
    && forall i | 0 < i < |run| :: IsStep(run[i - 1], run[i], anchors)
  }

  // ---------------------------------------------------------------------------------------------
  // Under every interleaving
  // ---------------------------------------------------------------------------------------------

  ghost predicate DataOk(d: Data, anchors: nat) {
    && d.anchor < anchors
    && (forall a: nat :: a in d.boundaries ==> a <= d.anchor)
    && (forall a: nat | a < d.anchor :: a in d.boundaries)
    && (d.anchor in d.boundaries ==> d.anchor + 1 < anchors && d.observed >= d.boundaries[d.anchor].index)
    && d.observed >= -1
  }

  /** What the reader carries was true of its epoch when it was read: boundaries are never changed or removed
  within one. */
  ghost predicate ReaderOk(d: Data, v: Snapshot, anchors: nat) {
    && v.anchor < anchors && v.epoch <= d.epoch
    && (v.boundary.Some? ==> v.boundary.value.index <= v.observed && v.anchor + 1 < anchors)
    && (v.boundary.Some? && v.epoch == d.epoch ==>
       v.anchor in d.boundaries && d.boundaries[v.anchor] == v.boundary.value)
  }

  ghost predicate Ok(s: System, anchors: nat) {
    DataOk(s.data, anchors) && (s.reader.Some? ==> ReaderOk(s.data, s.reader.value, anchors))
  }

  /** Entries of leaders and boundaries stay as they are until the record is reset for another epoch. */
  ghost predicate WriteOnce(before: Data, after: Data) {
    before.epoch == after.epoch ==>
      && (forall k | k in before.leaders :: k in after.leaders && after.leaders[k] == before.leaders[k])
      && (forall a | a in before.boundaries :: a in after.boundaries && after.boundaries[a] == before.boundaries[a])
  }

  /** The position in an epoch only moves on: to a later anchor, or on in the same one. */
  predicate MovesOn(before: Data, after: Data) {
    before.epoch <= after.epoch
    && (before.epoch == after.epoch ==> before.anchor <= after.anchor <= before.anchor + 1)
    && (before.epoch == after.epoch && before.anchor == after.anchor ==> before.observed <= after.observed)
  }

  lemma FlipKeepsOk(s: System, anchors: nat)
    requires Ok(s, anchors) && s.reader.Some? && AtBoundary(s.reader.value)
    ensures DataOk(Flip(s.data, s.reader.value), anchors)
  {
  }

  lemma CommitKeepsOk(s: System, f: Fetched, anchors: nat)
    requires Ok(s, anchors) && s.reader.Some?
    ensures DataOk(CommitBlock(s.data, s.reader.value, f), anchors)
            && WriteOnce(s.data, CommitBlock(s.data, s.reader.value, f))
  {
  }

  lemma RecordKeepsOk(s: System, epoch: int, anchor: nat, stats: Stats, anchors: nat)
    requires Ok(s, anchors) && anchor + 1 < anchors
    ensures var after := CommitRotation(s.data, epoch, anchor, stats);
            DataOk(after, anchors) && WriteOnce(s.data, after)
              && (s.reader.Some? ==> ReaderOk(after, s.reader.value, anchors))
  {
  }

  /** Each step of either thread, and each reset, keeps the record well formed and only moves on. */
  lemma StepKeepsOk(s: System, a: Action, anchors: nat)
    requires anchors > 0 && Ok(s, anchors) && Enabled(s, a, anchors)
    ensures Ok(Apply(s, a, anchors), anchors)
    ensures WriteOnce(s.data, Apply(s, a, anchors).data) && MovesOn(s.data, Apply(s, a, anchors).data)
  {
    match a
    case FlipAnchor => FlipKeepsOk(s, anchors);
    case Commit(fetched) => CommitKeepsOk(s, fetched, anchors);
    case Record(_, stats) => RecordKeepsOk(s, s.monitor.epoch, s.monitor.anchor, stats, anchors);
    case _ =>
  }

  /** Over every interleaving: the recorded boundaries are those of the anchors before the current one and perhaps its
  own, the current anchor exists, a recorded current boundary has been observed, and entries are written once. */
  lemma {:induction false} RunKeepsOk(run: seq<System>, anchors: nat, i: nat, j: nat)
    requires IsRun(run, anchors) && i <= j < |run|
    ensures Ok(run[j], anchors)
    ensures run[i].data.epoch <= run[j].data.epoch && WriteOnce(run[i].data, run[j].data)
  {
    if j > 0 {
      var prior := if i < j then i else j - 1;
      RunKeepsOk(run, anchors, prior, j - 1);
      assert IsStep(run[j - 1], run[j], anchors);
      var a :| Enabled(run[j - 1], a, anchors) && run[j] == Apply(run[j - 1], a, anchors);
      StepKeepsOk(run[j - 1], a, anchors);
    }
  }

  /** Once the current boundary is recorded, the reader's next pass flips to the next anchor instead of fetching. */
  lemma RecordedBoundaryFlips(run: seq<System>, anchors: nat, i: nat)
    requires IsRun(run, anchors) && i < |run|
    requires var d := run[i].data; run[i].reader.None? && d.anchor in d.boundaries
    ensures var s := run[i]; var read := Apply(s, ReadSnapshot, anchors);
            && !Enabled(read, GiveUp, anchors) && Enabled(read, FlipAnchor, anchors)
            && Apply(read, FlipAnchor, anchors).data == s.data.(anchor := s.data.anchor + 1, observed := -1)
  {
    RunKeepsOk(run, anchors, i, i);
  }

  // ---------------------------------------------------------------------------------------------
  // The observed pointer and the boundary
  // ---------------------------------------------------------------------------------------------

  /** What an epoch's anchor chains are: where each ends, and the hash of every block. */
  datatype Truth = Truth(end: (int, nat) -> Stats, hash: (int, nat, int) -> string)

  /** A commit that the anchors' own chains allow: the block has its hash, and none past its chain's end is
  finalized. */
  predicate Genuine(t: Truth, v: Snapshot, f: Fetched) {
    f.hash == t.hash(v.epoch, v.anchor, v.observed + 1)
      && (f.finalized ==> v.observed + 1 <= t.end(v.epoch, v.anchor).index)
  }

  /** An end is a block or the -1 before the first; no other block of the chain has its hash. */
  ghost predicate EndsAreBlocks(t: Truth) {
    && (forall e: int, a: nat :: t.end(e, a).index >= -1)
    && (forall e: int, a: nat, i: int :: t.hash(e, a, i) == t.end(e, a).hash ==> i == t.end(e, a).index)
  }

  /** The step records a chain's true end, and commits only what the chains allow. */
  predicate FollowsTruth(s: System, a: Action, t: Truth) {
    match a
    case Commit(fetched) => s.reader.Some? && Genuine(t, s.reader.value, fetched)
    case Record(_, stats) => s.monitor.Checked? && stats == t.end(s.monitor.epoch, s.monitor.anchor)
    case _ => true
  }

  /** The pointer is not past the end of the current chain, and recorded boundaries are the true ends. */
  ghost predicate WithinChain(s: System, t: Truth) {
    var d := s.data;
    && (forall a | a in d.boundaries :: d.boundaries[a] == t.end(d.epoch, a))
    && (d.observed == -1 || d.observed <= t.end(d.epoch, d.anchor).index)
  }

  lemma StepStaysWithinChain(s: System, a: Action, anchors: nat, t: Truth)
    requires anchors > 0 && Ok(s, anchors) && Enabled(s, a, anchors) && EndsAreBlocks(t)
    requires WithinChain(s, t) && FollowsTruth(s, a, t)
    ensures WithinChain(Apply(s, a, anchors), t)
  {
    match a
    case Commit(fetched) =>
      var d, v := s.data, s.reader.value;
      if Accepts(d, v, fetched) && !fetched.finalized {
        assert t.hash(v.epoch, v.anchor, v.observed + 1) == t.end(v.epoch, v.anchor).hash;
      }
    case _ =>
  }

  ghost predicate IsGenuineStep(before: System, after: System, anchors: nat, t: Truth) {
    exists a :: Enabled(before, a, anchors) && FollowsTruth(before, a, t) && after == Apply(before, a, anchors)
  }

  /** A run in which what is recorded and committed is genuine. */
  ghost predicate IsGenuineRun(run: seq<System>, anchors: nat, t: Truth) {
    && IsRun(run, anchors) && EndsAreBlocks(t)
    && forall i | 0 < i < |run| :: IsGenuineStep(run[i - 1], run[i], anchors, t)
  }

  lemma {:induction false} RunStaysWithinChain(run: seq<System>, anchors: nat, t: Truth, j: nat)
    requires IsGenuineRun(run, anchors, t) && j < |run|
    ensures WithinChain(run[j], t)
  {
    if j > 0 {
      RunStaysWithinChain(run, anchors, t, j - 1);
      RunKeepsOk(run, anchors, j - 1, j - 1);
      assert IsGenuineStep(run[j - 1], run[j], anchors, t);
      var a :| Enabled(run[j - 1], a, anchors) && FollowsTruth(run[j - 1], a, t)
        && run[j] == Apply(run[j - 1], a, anchors);
      StepStaysWithinChain(run[j - 1], a, anchors, t);
    }
  }

  /** With genuine anchor chains, from the moment the current boundary is recorded until the flip the pointer is
  exactly at it. */
  lemma RecordedMeansExactlyObserved(run: seq<System>, anchors: nat, t: Truth, j: nat)
    requires IsGenuineRun(run, anchors, t) && j < |run| && run[j].data.anchor in run[j].data.boundaries
    ensures run[j].data.observed == run[j].data.boundaries[run[j].data.anchor].index
  {
    RunStaysWithinChain(run, anchors, t, j);
    RunKeepsOk(run, anchors, j, j);
  }

  /** The pointer is past the recorded boundary of the current anchor. */
  predicate Past(d: Data) {
    d.anchor in d.boundaries && d.observed > d.boundaries[d.anchor].index
  }

  /** A block that was fetched at the recorded boundary is accepted after all. */
  predicate CommitsPast(s: System, a: Action) {
    && a.Commit? && s.reader.Some? && s.data.anchor in s.data.boundaries
    && Accepts(s.data, s.reader.value, a.fetched) && s.reader.value.observed == s.data.observed
  }

  /** A boundary below the pointer is recorded for the current anchor. */
  predicate RecordsBelow(s: System, a: Action) {
    && a.Record? && s.monitor.Checked? && s.monitor.epoch == s.data.epoch && s.monitor.anchor == s.data.anchor
    && s.data.anchor !in s.data.boundaries && a.stats.index < s.data.observed
  }

  /** Neither the re-checks nor the raise of the pointer keep it at the boundary by themselves: a step takes it past a
  recorded boundary exactly when it commits a block fetched at the boundary or records a boundary below the pointer. */
  lemma StepPassesBoundaryIff(s: System, a: Action, anchors: nat)
    requires Ok(s, anchors) && Enabled(s, a, anchors) && !Past(s.data)
    ensures Past(Apply(s, a, anchors).data) <==> CommitsPast(s, a) || RecordsBelow(s, a)
  {
  }

  /** A pointer that is past stays past until the anchor or the epoch changes. */
  lemma PastStaysPast(s: System, a: Action, anchors: nat)
    requires Ok(s, anchors) && Enabled(s, a, anchors) && Past(s.data)
    ensures var after := Apply(s, a, anchors).data;
            Past(after) || after.anchor != s.data.anchor || after.epoch != s.data.epoch
  {
  }

  ghost predicate PassesAt(run: seq<System>, anchors: nat, i: nat)
    requires i + 1 < |run|
  {
    exists a :: Enabled(run[i], a, anchors) && run[i + 1] == Apply(run[i], a, anchors)
                && (CommitsPast(run[i], a) || RecordsBelow(run[i], a))
  }

  /** Over every interleaving a pointer that is past its boundary got there by such a step. */
  lemma {:induction false} PastMeansPassed(run: seq<System>, anchors: nat, j: nat)
    requires IsRun(run, anchors) && j < |run| && Past(run[j].data)
    ensures exists i: nat :: i < j && PassesAt(run, anchors, i)
  {
    if j > 0 {
      if Past(run[j - 1].data) {
        PastMeansPassed(run, anchors, j - 1);
      } else {
        RunKeepsOk(run, anchors, j - 1, j - 1);
        assert IsStep(run[j - 1], run[j], anchors);
        var a :| Enabled(run[j - 1], a, anchors) && run[j] == Apply(run[j - 1], a, anchors);
        StepPassesBoundaryIff(run[j - 1], a, anchors);
        assert PassesAt(run, anchors, j - 1);
      }
    }
  }

  /** A run that commits past: the reader fetches block 0, the monitor records the end -1, the reader
  commits block 0. */
  function PassingRun(): (run: seq<System>)
    ensures |run| == 6
  {
    var s0 := System(FreshData(0), None, Resting);
    var s1 := Apply(s0, ReadSnapshot, 2);
    var s2 := Apply(s1, ChooseAnchor, 2);
    var s3 := Apply(s2, CheckAnchor, 2);
    var s4 := Apply(s3, Record(1, Stats(-1, "")), 2);
    var s5 := Apply(s4, Commit(Fetched("block", map[], true)), 2);
    [s0, s1, s2, s3, s4, s5]
  }

  lemma PointerCanPassBoundary()
    ensures var run := PassingRun(); var d := run[5].data;
            IsRun(run, 2) && d.anchor in d.boundaries && d.observed == 0 && d.boundaries[d.anchor].index == -1
  {
  }

  /** The system after the reader has committed finalized blocks 0 to n - 1. */
  function Reading(n: nat): System {
    System(FreshData(0).(observed := n - 1), None, Resting)
  }

  function CommittingRun(n: nat): (run: seq<System>)
    ensures |run| == 2 * n + 1 && run[0] == Reading(0) && run[|run| - 1] == Reading(n)
  {
    if n == 0 then [Reading(0)]
    else
      CommittingRun(n - 1) + [
        Reading(n - 1).(reader := Some(TakeSnapshot(Reading(n - 1).data))),
        Reading(n)
      ]
  }

  /** A run that records below: the reader commits n blocks, then the monitor records the end -1. */
  function RecordingRun(n: nat): (run: seq<System>)
    ensures |run| == 2 * n + 4
  {
    CommittingRun(n) + [
      Reading(n).(monitor := Chosen(0, 0)),
      Reading(n).(monitor := Checked(0, 0)),
      Reading(n).(data := Reading(n).data.(boundaries := map[0 := Stats(-1, "")]))
    ]
  }

  lemma SomeStep(before: System, a: Action, after: System)
    requires Enabled(before, a, 2) && after == Apply(before, a, 2)
    ensures IsStep(before, after, 2)
  {
  }

  lemma ReadAndCommit(n: nat)
    ensures var reading := Reading(n).(reader := Some(TakeSnapshot(Reading(n).data)));
            IsStep(Reading(n), reading, 2) && IsStep(reading, Reading(n + 1), 2)
  {
    var reading := Reading(n).(reader := Some(TakeSnapshot(Reading(n).data)));
    SomeStep(Reading(n), ReadSnapshot, reading);
    SomeStep(reading, Commit(Fetched("block", map[], true)), Reading(n + 1));
  }

  lemma {:induction false} CommittingSteps(n: nat, i: nat)
    requires 0 < i < |CommittingRun(n)|
    ensures IsStep(CommittingRun(n)[i - 1], CommittingRun(n)[i], 2)
  {
    if i < |CommittingRun(n - 1)| {
      CommittingSteps(n - 1, i);
    } else {
      ReadAndCommit(n - 1);
    }
  }

  /** No commit is in flight, and the pointer ends any number of blocks past the boundary that is recorded. */
  lemma RecordingCanPassBoundary(n: nat)
    ensures var run := RecordingRun(n); var last := run[|run| - 1];
            && IsRun(run, 2) && last.reader.None? && last.data.anchor in last.data.boundaries
            && last.data.observed == last.data.boundaries[last.data.anchor].index + n
  {
    var run := RecordingRun(n);
    SomeStep(Reading(n), ChooseAnchor, run[2 * n + 1]);
    SomeStep(run[2 * n + 1], CheckAnchor, run[2 * n + 2]);
    SomeStep(run[2 * n + 2], Record(1, Stats(-1, "")), run[2 * n + 3]);
    forall i | 0 < i < |run|
      ensures IsStep(run[i - 1], run[i], 2)
    {
      if i <= 2 * n {
        CommittingSteps(n, i);
      }
    }
  }

  // ---------------------------------------------------------------------------------------------
  // The record in place
  // ---------------------------------------------------------------------------------------------

  class FinalizerMetadata {
    var epoch: int
    var anchor: nat
    var observed: int
    var leaders: map<string, Stats>
    var boundaries: map<nat, Stats>

    function State(): Data
      reads this
    {
      Data(epoch, anchor, observed, leaders, boundaries)
    }

    constructor (epoch: int)
      ensures State() == FreshData(epoch)
    {
      this.epoch, anchor, observed, leaders, boundaries := epoch, 0, -1, map[], map[];
    }

    method FlipToNextAnchor(v: Snapshot)
      modifies this
      ensures State() == Flip(old(State()), v)
    {
      if epoch == v.epoch && anchor == v.anchor && observed == v.observed {
        anchor := anchor + 1;
        observed := -1;
      }
    }

    method AddLeaders(found: map<string, Stats>)
      modifies `leaders
      ensures leaders == found + old(leaders)
    {
      var rest := found.Keys;
      while rest != {}
        invariant rest <= found.Keys
        invariant leaders.Keys == old(leaders).Keys + (found.Keys - rest)
        invariant forall k | k in leaders :: leaders[k] == if k in old(leaders) then old(leaders)[k] else found[k]
        decreases |rest|
      {
        var leader :| leader in rest;
        rest := rest - {leader};
        if leader !in leaders {
          leaders := leaders[leader := found[leader]];
        }
      }
    }

    method CommitFetchedBlock(v: Snapshot, f: Fetched)
      modifies this
      ensures State() == CommitBlock(old(State()), v, f)
    {
      if epoch != v.epoch || anchor != v.anchor {
        return;
      }
      var matches := anchor in boundaries && boundaries[anchor].index == observed && f.hash == boundaries[anchor].hash;
      if !matches && !f.finalized {
        return;
      }
      AddLeaders(f.leaders);
      if observed == v.observed {
        observed := observed + 1;
      }
    }

    method RecordRotation(checkedEpoch: int, checkedAnchor: nat, stats: Stats)
      modifies this
      ensures State() == CommitRotation(old(State()), checkedEpoch, checkedAnchor, stats)
    {
      if epoch != checkedEpoch || anchor != checkedAnchor {
        return;
      }
      if checkedAnchor !in boundaries {
        boundaries := boundaries[checkedAnchor := stats];
        if observed < stats.index {
          observed := stats.index;
        }
      }
    }

    method RotateEpochIfNeeded(target: int) returns (rotated: bool)
      modifies this
      ensures rotated == (old(epoch) != target) && State() == if rotated then FreshData(target) else old(State())
    {
      if epoch == target {
        return false;
      }
      epoch, anchor, observed, leaders, boundaries := target, 0, -1, map[], map[];
      rotated := true;
    }
  }
}
