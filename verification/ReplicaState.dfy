/** One partition's replication state: broker/src/cluster.rs. */
module ReplicaState {
  import opened Bytes

  type BrokerId = u32

  /** The fields of PartitionReplicaState as a value. */
  datatype State = State(
    leader: BrokerId,
    replicas: seq<BrokerId>,
    isr: set<BrokerId>,
    offsets: map<BrokerId, nat>,
    highWatermark: nat,
    epoch: nat)

  // --------------------------------------------------------- the transitions

  function Initial(leader: BrokerId, replicas: seq<BrokerId>): State {
    State(leader, replicas, set b | b in replicas, map b | b in replicas :: 0, 0, 0)
  }

  /** m is the least offset known for a member of the in-sync set, or 0 when
      none is known. */
  ghost predicate IsLeast(isr: set<BrokerId>, offsets: map<BrokerId, nat>, m: nat) {
    if isr * offsets.Keys == {} then m == 0
    else (exists b :: b in isr && b in offsets && offsets[b] == m)
         && forall b :: b in isr && b in offsets ==> m <= offsets[b]
  }

  /** An offset report, watermark included. */
  ghost predicate Reported(s: State, b: BrokerId, offset: nat, lagThreshold: nat, s': State) {
    var offsets := s.offsets[b := offset];
    var leaderOffset := if s.leader in offsets then offsets[s.leader] else 0;
    var isr := if offset + lagThreshold >= leaderOffset then s.isr + {b} else s.isr - {b};
    && s' == s.(offsets := offsets, isr := isr, highWatermark := s'.highWatermark)
    && (if isr == {} then s'.highWatermark == s.highWatermark else IsLeast(isr, offsets, s'.highWatermark))
  }

  /** An election: any member of the in-sync set, or else the first replica. */
  ghost predicate Elected(s: State, s': State) {
    if s.isr != {} then
      s'.leader in s.isr && s' == s.(leader := s'.leader, epoch := s.epoch + 1)
    else if |s.replicas| > 0 then
      s' == s.(leader := s.replicas[0], epoch := s.epoch + 1, isr := {s.replicas[0]})
    else
      s' == s
  }

  /** What the failure of one broker does to one partition. */
  ghost predicate Failed(s: State, b: BrokerId, s': State) {
    var t := s.(isr := s.isr - {b});
    if s.leader == b then Elected(t, s') else s' == t
  }

  // ---------------------------------------------------------------- the class

  class PartitionReplicaState {
    var leader: BrokerId
    var replicas: seq<BrokerId>
    var isr: set<BrokerId>
    var replicaOffsets: map<BrokerId, nat>
    var highWatermark: nat
    var leaderEpoch: nat

    ghost function View(): State
      reads this
    {
      State(leader, replicas, isr, replicaOffsets, highWatermark, leaderEpoch)
    }

    constructor (leader: BrokerId, replicas: seq<BrokerId>)
      ensures View() == Initial(leader, replicas)
      ensures this.leader == leader && this.replicas == replicas && highWatermark == leaderEpoch == 0
      ensures forall b :: b in isr <==> b in replicas
      ensures forall b :: (b in replicaOffsets <==> b in replicas) && (b in replicaOffsets ==> replicaOffsets[b] == 0)
    {
      this.leader, this.replicas := leader, replicas;
      isr := set b | b in replicas;
      replicaOffsets := map b | b in replicas :: 0;
      highWatermark, leaderEpoch := 0, 0;
    }

    /** Records the offset. The reporter is in the in-sync set afterwards if and
        only if it is the leader, no leader offset is recorded, or it is at most
        the threshold behind the leader's; every other broker keeps its place,
        and the watermark is the least offset recorded for a member. */
    method UpdateReplicaOffset(b: BrokerId, offset: nat, lagThreshold: nat)
      requires offset + lagThreshold < TWO_64
      modifies this
      ensures Reported(old(View()), b, offset, lagThreshold, View())
      ensures replicaOffsets == old(replicaOffsets)[b := offset]
      ensures b in isr <==> b == leader || leader !in old(replicaOffsets) || old(replicaOffsets)[leader] <= offset + lagThreshold
      ensures forall c :: c != b ==> (c in isr <==> c in old(isr))
      ensures leader == old(leader) && replicas == old(replicas) && leaderEpoch == old(leaderEpoch)
      ensures forall c :: c in isr && c in replicaOffsets ==> highWatermark <= replicaOffsets[c]
      ensures isr * replicaOffsets.Keys != {} ==> exists c :: c in isr && c in replicaOffsets && replicaOffsets[c] == highWatermark
    {
      replicaOffsets := replicaOffsets[b := offset];
      var leaderOffset := if leader in replicaOffsets then replicaOffsets[leader] else 0;
      if offset + lagThreshold >= leaderOffset {
        isr := isr + {b};
      } else {
        isr := isr - {b};
      }
      UpdateHighWatermark();
    }

    /** The minimum over the in-sync set, visited in any order. */
    method UpdateHighWatermark()
      modifies this`highWatermark
      ensures if isr == {} then highWatermark == old(highWatermark) else IsLeast(isr, replicaOffsets, highWatermark)
    {
      if isr == {} {
        return;
      }
      var least: Option<nat> := None;
      var rest := isr;
      while rest != {}
        invariant rest <= isr
        invariant least.None? ==> forall b :: b in isr && b in replicaOffsets ==> b in rest
        invariant least.Some? ==> exists b :: b in isr && b in replicaOffsets && replicaOffsets[b] == least.value
        invariant least.Some? ==> forall b :: b in isr && b in replicaOffsets && b !in rest ==> least.value <= replicaOffsets[b]
        decreases |rest|
      {
        var b :| b in rest;
        if b in replicaOffsets && (least.None? || replicaOffsets[b] < least.value) {
          least := Some(replicaOffsets[b]);
        }
        rest := rest - {b};
      }
      highWatermark := if least.Some? then least.value else 0;
      assert least.Some? ==> isr * replicaOffsets.Keys != {};
    }

    method ElectNewLeader() returns (elected: Option<BrokerId>)
      modifies this`leader, this`leaderEpoch, this`isr
      ensures Elected(old(View()), View())
      ensures elected == if old(isr) == {} && |replicas| == 0 then None else Some(leader)
    {
      if isr != {} {
        var newLeader :| newLeader in isr;
        leader := newLeader;
        leaderEpoch := leaderEpoch + 1;
        return Some(newLeader);
      }
      if |replicas| > 0 {
        leader := replicas[0];
        leaderEpoch := leaderEpoch + 1;
        isr := isr + {replicas[0]};
        return Some(leader);
      }
      return None;
    }

    /** The part of handle_broker_failure that concerns this partition. */
    method HandleFailure(failed: BrokerId) returns (elected: Option<BrokerId>)
      modifies this`leader, this`leaderEpoch, this`isr
      ensures Failed(old(View()), failed, View())
      ensures elected.Some? <==> old(leader) == failed && (old(isr) - {failed} != {} || |replicas| > 0)
      ensures elected.Some? ==> elected.value == leader
    {
      isr := isr - {failed};
      elected := None;
      if leader == failed {
        elected := ElectNewLeader();
      }
    }
  }

  // --------------------------------------------------------------------- runs

  datatype Event = Report(broker: BrokerId, offset: nat) | Failure(broker: BrokerId)

  ghost predicate Next(s: State, e: Event, lagThreshold: nat, s': State) {
    match e
    case Report(b, offset) => Reported(s, b, offset, lagThreshold, s')
    case Failure(b) => Failed(s, b, s')
  }

  /** A broker never reports less than it did before. */
  ghost predicate Grows(s: State, e: Event) {
    e.Report? && e.broker in s.offsets ==> s.offsets[e.broker] <= e.offset
  }

  /** No election with an empty in-sync set. */
  ghost predicate CleanStep(s: State, e: Event) {
    e.Failure? && s.leader == e.broker ==> s.isr - {e.broker} != {}
  }

  /** No election that finds the in-sync set empty, unless the first replica
      has all that may be acknowledged. */
  ghost predicate SafeStep(s: State, e: Event) {
    CleanStep(s, e) || |s.replicas| == 0
    || (s.replicas[0] in s.offsets && s.highWatermark <= s.offsets[s.replicas[0]])
  }

  /** The leader never reports less than it did before. */
  ghost predicate LeaderGrows(s: State, e: Event) {
    e.Report? && e.broker == s.leader ==> Grows(s, e)
  }

  /** A report of at least the watermark, or of a follower that drops out. */
  ghost predicate KeepsUp(s: State, e: Event, lagThreshold: nat) {
    e.Report? ==>
      e.offset >= s.highWatermark
      || (e.broker != s.leader && s.leader in s.offsets && e.offset + lagThreshold < s.offsets[s.leader])
  }

  /** Every run from creation with the leader among the replicas. */
  ghost predicate Run(ss: seq<State>, es: seq<Event>, lagThreshold: nat) {
    && |ss| == |es| + 1
    && ss[0].leader in ss[0].replicas && ss[0] == Initial(ss[0].leader, ss[0].replicas)
    && forall i :: 0 <= i < |es| ==> Next(ss[i], es[i], lagThreshold, ss[i + 1])
  }

  ghost predicate Clean(ss: seq<State>, es: seq<Event>)
    requires |ss| == |es| + 1
  {
    forall i :: 0 <= i < |es| ==> CleanStep(ss[i], es[i])
  }

  ghost predicate Growing(ss: seq<State>, es: seq<Event>)
    requires |ss| == |es| + 1
  {
    forall i :: 0 <= i < |es| ==> Grows(ss[i], es[i])
  }

  ghost predicate Safe(ss: seq<State>, es: seq<Event>)
    requires |ss| == |es| + 1
  {
    forall i :: 0 <= i < |es| ==> SafeStep(ss[i], es[i])
  }

  ghost predicate LeaderGrowing(ss: seq<State>, es: seq<Event>)
    requires |ss| == |es| + 1
  {
    forall i :: 0 <= i < |es| ==> LeaderGrows(ss[i], es[i])
  }

  /** What holds in every reachable state. */
  ghost predicate WellFormed(s: State) {
    && s.leader in s.isr
    && s.isr <= s.offsets.Keys
    && |s.replicas| > 0 && (forall b :: b in s.replicas ==> b in s.offsets)
  }

  /** Every member of the in-sync set holds all that may be acknowledged. */
  ghost predicate Covered(s: State) {
    forall b :: b in s.isr && b in s.offsets ==> s.highWatermark <= s.offsets[b]
  }

  lemma StepKeepsWellFormed(s: State, e: Event, lagThreshold: nat, s': State)
    requires WellFormed(s) && Next(s, e, lagThreshold, s')
    ensures WellFormed(s')
    ensures e.Report? ==> Covered(s')
    ensures Covered(s) && SafeStep(s, e) ==> Covered(s')
  {
  }

  /** The failure of a broker leaves some in-sync member without all that may
      be acknowledged if and only if it makes an election find the set empty
      while the first replica lacks some of it. */
  lemma FailureKeepsCoveredExactlyWhen(s: State, b: BrokerId, s': State)
    requires WellFormed(s) && Covered(s) && Failed(s, b, s')
    ensures Covered(s') <==> SafeStep(s, Failure(b))
  {
    if s.leader == b && s.isr - {b} == {} {
      assert s'.isr == {s.replicas[0]} && s.replicas[0] in s'.isr;
    }
  }

  /** A report lowers the watermark if and only if it is below the watermark
      and does not take its follower out of the in-sync set. */
  lemma ReportKeepsWatermarkExactlyWhen(s: State, b: BrokerId, offset: nat, lagThreshold: nat, s': State)
    requires WellFormed(s) && Covered(s) && Reported(s, b, offset, lagThreshold, s')
    ensures s.highWatermark <= s'.highWatermark <==> KeepsUp(s, Report(b, offset), lagThreshold)
  {
    assert s.leader in s'.isr && s.leader in s'.offsets;
    assert b in s'.isr ==> s'.highWatermark <= offset;
  }

  /** In every run the leader is in the in-sync set, and every in-sync member
      covers the watermark unless an unsafe election came before and no report
      has come since. */
  lemma {:induction false} ReachableStates(ss: seq<State>, es: seq<Event>, lagThreshold: nat, i: nat)
    requires Run(ss, es, lagThreshold) && i < |ss|
    ensures WellFormed(ss[i])
    ensures (forall j :: 0 <= j < i ==> SafeStep(ss[j], es[j])) ==> Covered(ss[i])
    ensures i > 0 && es[i - 1].Report? ==> Covered(ss[i])
  {
    if i > 0 {
      ReachableStates(ss, es, lagThreshold, i - 1);
      StepKeepsWellFormed(ss[i - 1], es[i - 1], lagThreshold, ss[i]);
    }
  }

  /** So in every run the in-sync members always have all that may be
      acknowledged if and only if all its elections are safe. */
  lemma AlwaysCoveredExactlyWhen(ss: seq<State>, es: seq<Event>, lagThreshold: nat)
    requires Run(ss, es, lagThreshold)
    ensures (forall i :: 0 <= i < |ss| ==> Covered(ss[i])) <==> Safe(ss, es)
  {
    forall i | 0 <= i < |ss|
      ensures WellFormed(ss[i]) && ((forall j :: 0 <= j < i ==> SafeStep(ss[j], es[j])) ==> Covered(ss[i]))
    {
      ReachableStates(ss, es, lagThreshold, i);
    }
    if forall i :: 0 <= i < |ss| ==> Covered(ss[i]) {
      forall i | 0 <= i < |es|
        ensures SafeStep(ss[i], es[i])
      {
        assert Covered(ss[i]) && Covered(ss[i + 1]) && Next(ss[i], es[i], lagThreshold, ss[i + 1]);
        if es[i].Failure? {
          FailureKeepsCoveredExactlyWhen(ss[i], es[i].broker, ss[i + 1]);
        }
      }
    }
    if Safe(ss, es) {
      forall i | 0 <= i < |ss|
        ensures Covered(ss[i])
      {
        assert forall j :: 0 <= j < i ==> SafeStep(ss[j], es[j]);
      }
    }
  }

  // --------------------------------------------- what the events say of a state

  /** What a broker reported last. */
  function LastReport(es: seq<Event>, b: BrokerId): Option<nat> {
    if |es| == 0 then None
    else
      var last := es[|es| - 1];
      if last.Report? && last.broker == b then Some(last.offset) else LastReport(es[..|es| - 1], b)
  }

  lemma OnlyReportsRecord(s: State, e: Event, lagThreshold: nat, s': State)
    requires Next(s, e, lagThreshold, s')
    ensures s'.replicas == s.replicas
    ensures s'.offsets == if e.Report? then s.offsets[e.broker := e.offset] else s.offsets
  {
  }

  lemma LastReportSnoc(es: seq<Event>, i: nat, b: BrokerId)
    requires i < |es|
    ensures LastReport(es[..i + 1], b)
         == if es[i].Report? && es[i].broker == b then Some(es[i].offset) else LastReport(es[..i], b)
  {
    assert es[..i + 1][..i] == es[..i];
  }

  /** The offset recorded for a broker is the last one it reported, or 0 for a
      replica that has reported nothing. */
  lemma {:induction false} RecordedIsLastReport(ss: seq<State>, es: seq<Event>, lagThreshold: nat, i: nat, b: BrokerId)
    requires Run(ss, es, lagThreshold) && i < |ss|
    ensures ss[i].replicas == ss[0].replicas
    ensures b in ss[i].offsets <==> b in ss[0].replicas || LastReport(es[..i], b).Some?
    ensures b in ss[i].offsets ==>
              ss[i].offsets[b] == if LastReport(es[..i], b).Some? then LastReport(es[..i], b).value else 0
  {
    if i > 0 {
      RecordedIsLastReport(ss, es, lagThreshold, i - 1, b);
      OnlyReportsRecord(ss[i - 1], es[i - 1], lagThreshold, ss[i]);
      LastReportSnoc(es, i - 1, b);
    }
  }

  /** Who is in sync after an event. A report decides for its broker alone; a
      failure takes its broker out, and when that was the leader and nobody
      else was in sync it makes the first replica the only member. */
  lemma InSyncExactlyWhen(ss: seq<State>, es: seq<Event>, lagThreshold: nat, i: nat, b: BrokerId)
    requires Run(ss, es, lagThreshold) && i < |es|
    ensures ss[i].leader in ss[i].offsets && |ss[i].replicas| > 0
    ensures b in ss[i + 1].isr <==>
            match es[i]
            case Report(c, offset) =>
              if c == b then b == ss[i].leader || ss[i].offsets[ss[i].leader] <= offset + lagThreshold
              else b in ss[i].isr
            case Failure(c) =>
              if c == ss[i].leader && ss[i].isr <= {c} then b == ss[i].replicas[0]
              else b in ss[i].isr && b != c
  {
    ReachableStates(ss, es, lagThreshold, i);
    assert Next(ss[i], es[i], lagThreshold, ss[i + 1]);
  }

  /** A broker whose report is at most the threshold behind the leader's
      recorded offset is in sync from then until its next report or failure. */
  lemma {:induction false} CaughtUpStays(ss: seq<State>, es: seq<Event>, lagThreshold: nat, b: BrokerId, offset: nat,
                                         i: nat, j: nat)
    requires Run(ss, es, lagThreshold) && i < j < |ss| && es[i] == Report(b, offset)
    requires ss[i].leader in ss[i].offsets ==>
               b == ss[i].leader || ss[i].offsets[ss[i].leader] <= offset + lagThreshold
    requires forall k :: i < k < j ==> es[k].broker != b
    ensures b in ss[j].isr
    decreases j
  {
    InSyncExactlyWhen(ss, es, lagThreshold, j - 1, b);
    if i < j - 1 {
      CaughtUpStays(ss, es, lagThreshold, b, offset, i, j - 1);
    }
  }

  /** A follower whose report lags further behind is out of sync from then on,
      until it reports again and has caught up, or the leader fails with
      nobody else in sync and the follower is the first replica. */
  lemma {:induction false} LaggingStaysOut(ss: seq<State>, es: seq<Event>, lagThreshold: nat, b: BrokerId, offset: nat,
                                           i: nat, j: nat)
    requires Run(ss, es, lagThreshold) && i < j < |ss| && es[i] == Report(b, offset)
    requires b != ss[i].leader && ss[i].leader in ss[i].offsets && offset + lagThreshold < ss[i].offsets[ss[i].leader]
    requires forall k :: i < k < j && es[k].Report? && es[k].broker == b ==>
               && b != ss[k].leader && ss[k].leader in ss[k].offsets
               && es[k].offset + lagThreshold < ss[k].offsets[ss[k].leader]
    requires forall k :: i < k < j && es[k] == Failure(ss[k].leader) && |ss[k].replicas| > 0 && b == ss[k].replicas[0] ==>
               exists c :: c in ss[k].isr && c != ss[k].leader
    ensures b !in ss[j].isr
    decreases j
  {
    InSyncExactlyWhen(ss, es, lagThreshold, j - 1, b);
    if i < j - 1 {
      LaggingStaysOut(ss, es, lagThreshold, b, offset, i, j - 1);
    }
  }

  /** Only the failure of the leader changes the leader: to some other in-sync
      member, or to the first replica when there is none; and each one makes
      the epoch one higher. */
  lemma LeaderChangesExactlyWhen(ss: seq<State>, es: seq<Event>, lagThreshold: nat, i: nat)
    requires Run(ss, es, lagThreshold) && i < |es|
    ensures ss[i + 1].epoch == ss[i].epoch + if es[i] == Failure(ss[i].leader) then 1 else 0
    ensures es[i] != Failure(ss[i].leader) ==> ss[i + 1].leader == ss[i].leader
    ensures es[i] == Failure(ss[i].leader) && !(ss[i].isr <= {ss[i].leader}) ==>
              ss[i + 1].leader in ss[i].isr && ss[i + 1].leader != ss[i].leader
    ensures es[i] == Failure(ss[i].leader) && ss[i].isr <= {ss[i].leader} ==>
              |ss[0].replicas| > 0 && ss[i + 1].leader == ss[0].replicas[0]
  {
    ReachableStates(ss, es, lagThreshold, i);
    RecordedIsLastReport(ss, es, lagThreshold, i, ss[i].leader);
    assert Next(ss[i], es[i], lagThreshold, ss[i + 1]);
  }

  ghost predicate HeldByAll(isr: set<BrokerId>, offsets: map<BrokerId, nat>, offset: nat) {
    forall b :: b in isr ==> b in offsets && offset <= offsets[b]
  }

  /** An offset may be acknowledged after a report if and only if every in-sync
      member has one at least as high recorded; failures change nothing about
      it. */
  lemma AcknowledgedExactlyWhen(ss: seq<State>, es: seq<Event>, lagThreshold: nat, i: nat, offset: nat)
    requires Run(ss, es, lagThreshold) && i < |es|
    ensures es[i].Report? ==>
              (CanAcknowledge(ss[i + 1], offset) <==> HeldByAll(ss[i + 1].isr, ss[i + 1].offsets, offset))
    ensures es[i].Failure? ==> (CanAcknowledge(ss[i + 1], offset) <==> CanAcknowledge(ss[i], offset))
    ensures i == 0 ==> (CanAcknowledge(ss[i], offset) <==> offset == 0)
  {
    ReachableStates(ss, es, lagThreshold, i);
    ReachableStates(ss, es, lagThreshold, i + 1);
    assert Next(ss[i], es[i], lagThreshold, ss[i + 1]);
    var s := ss[i + 1];
    if es[i].Report? {
      var w :| w in s.isr && w in s.offsets && s.offsets[w] == s.highWatermark;
    }
  }

  ghost predicate FallsAt(ss: seq<State>, i: nat)
    requires i + 1 < |ss|
  {
    ss[i + 1].highWatermark < ss[i].highWatermark
  }

  /** And with safe elections the watermark falls at exactly the reports that
      do not keep up. */
  lemma FallsExactlyWhen(ss: seq<State>, es: seq<Event>, lagThreshold: nat, i: nat)
    requires Run(ss, es, lagThreshold) && Safe(ss, es) && i < |es|
    ensures FallsAt(ss, i) <==> !KeepsUp(ss[i], es[i], lagThreshold)
  {
    ReachableStates(ss, es, lagThreshold, i);
    assert Next(ss[i], es[i], lagThreshold, ss[i + 1]);
    if es[i].Report? {
      ReportKeepsWatermarkExactlyWhen(ss[i], es[i].broker, es[i].offset, lagThreshold, ss[i + 1]);
    }
  }

  // ---------------------------------------------------------- watermark bound

  /** m is a watermark once shown; `slack` bounds what the leader lacks of it. */
  ghost predicate Remembers(s: State, slack: nat, lagThreshold: nat, m: nat) {
    && WellFormed(s) && Covered(s)
    && m <= s.offsets[s.leader] + slack
    && m <= s.highWatermark + slack + lagThreshold
  }

  /** A safe election costs one threshold of slack, a report none. */
  lemma StepRemembers(s: State, e: Event, slack: nat, lagThreshold: nat, s': State, m: nat)
    requires Remembers(s, slack, lagThreshold, m) && Next(s, e, lagThreshold, s')
    requires LeaderGrows(s, e) && SafeStep(s, e)
    ensures Remembers(s', if s'.epoch > s.epoch then slack + lagThreshold else slack, lagThreshold, m)
    ensures s.epoch <= s'.epoch <= s.epoch + 1
  {
    StepKeepsWellFormed(s, e, lagThreshold, s');
    if e.Report? {
      var w :| w in s'.isr && s'.offsets[w] == s'.highWatermark;
    }
  }

  /** One threshold for every election so far. */
  function Slack(epoch: nat, lagThreshold: nat): nat {
    if epoch == 0 then 0 else Slack(epoch - 1, lagThreshold) + lagThreshold
  }

  lemma {:induction false} SlackIsProduct(epoch: nat, lagThreshold: nat)
    ensures Slack(epoch, lagThreshold) == epoch * lagThreshold
  {
    if epoch > 0 {
      SlackIsProduct(epoch - 1, lagThreshold);
      assert (epoch - 1) * lagThreshold + lagThreshold == epoch * lagThreshold;
    }
  }

  lemma {:induction false} Remembered(ss: seq<State>, es: seq<Event>, lagThreshold: nat, i: nat, j: nat)
    requires Run(ss, es, lagThreshold) && Safe(ss, es) && LeaderGrowing(ss, es) && i <= j < |ss|
    ensures Remembers(ss[j], Slack(ss[j].epoch, lagThreshold), lagThreshold, ss[i].highWatermark)
    decreases j
  {
    if i == j {
      ReachableStates(ss, es, lagThreshold, i);
    } else {
      var s := ss[j - 1];
      Remembered(ss, es, lagThreshold, i, j - 1);
      StepRemembers(s, es[j - 1], Slack(s.epoch, lagThreshold), lagThreshold, ss[j], ss[i].highWatermark);
    }
  }

  /** The watermark never falls more than (epoch + 1) lag thresholds below any
      value it had, and the leader never holds less than epoch thresholds
      below it: in every run with safe elections in which no leader reports
      less than before, whatever the followers report. WatermarkExact shows
      that the bound is reached even when all elections are clean and no broker
      reports less than before. */
  lemma WatermarkBound(ss: seq<State>, es: seq<Event>, lagThreshold: nat, i: nat, j: nat)
    requires Run(ss, es, lagThreshold) && Safe(ss, es) && LeaderGrowing(ss, es) && i <= j < |ss|
    ensures WellFormed(ss[j])
    ensures ss[i].highWatermark <= ss[j].highWatermark + (ss[j].epoch + 1) * lagThreshold
    ensures ss[i].highWatermark <= ss[j].offsets[ss[j].leader] + ss[j].epoch * lagThreshold
  {
    Remembered(ss, es, lagThreshold, i, j);
    SlackIsProduct(ss[j].epoch, lagThreshold);
    SlackIsProduct(ss[j].epoch + 1, lagThreshold);
  }

  /** With threshold 0 the watermark never falls, and every offset that could
      once be acknowledged is held by the leader after any number of failovers. */
  lemma NothingAcknowledgedIsLost(ss: seq<State>, es: seq<Event>, i: nat, j: nat, offset: nat)
    requires Run(ss, es, 0) && Safe(ss, es) && LeaderGrowing(ss, es) && i <= j < |ss|
    requires CanAcknowledge(ss[i], offset)
    ensures CanAcknowledge(ss[j], offset)
    ensures ss[j].leader in ss[j].offsets && offset <= ss[j].offsets[ss[j].leader]
  {
    WatermarkBound(ss, es, 0, i, j);
  }

  /** can_acknowledge_write */
  predicate CanAcknowledge(s: State, offset: nat) {
    offset <= s.highWatermark
  }
}
