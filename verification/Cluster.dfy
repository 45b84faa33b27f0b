/** All partitions of a cluster and the health check over them:
    broker/src/cluster.rs and broker/src/replication.rs. */
module Cluster {
  import opened Bytes
  import opened ReplicaState

  type Key = (string, u32)

  type Views = map<Key, State>

  // --------------------------------------------------------- the transitions

  /** One broker failure, seen by every partition. */
  ghost predicate FailedEverywhere(m: Views, b: BrokerId, m': Views) {
    m'.Keys == m.Keys && forall k {:trigger m'[k]} :: k in m.Keys ==> Failed(m[k], b, m'[k])
  }

  /** Several failures, one after the other. */
  ghost predicate FailedInTurn(s: State, bs: seq<BrokerId>, s': State) {
    if |bs| == 0 then s' == s
    else exists t {:trigger Failed(t, bs[|bs| - 1], s')} :: FailedInTurn(s, bs[..|bs| - 1], t) && Failed(t, bs[|bs| - 1], s')
  }

  ghost predicate LeadsSome(m: Views, b: BrokerId) {
    exists k :: k in m.Keys && m[k].leader == b
  }

  /** One health check: every partition sees the same failures, each of some
      partition's leader that is not alive, and its own leader's if that one is
      dead. */
  ghost predicate Checked(m: Views, alive: set<BrokerId>, failed: seq<BrokerId>, m': Views) {
    && m'.Keys == m.Keys
    && (forall b :: b in failed ==> b !in alive && LeadsSome(m, b))
    && (forall k {:trigger m'[k]} :: k in m.Keys ==> FailedInTurn(m[k], failed, m'[k]))
    && (forall k {:trigger m[k]} :: k in m.Keys && m[k].leader !in alive ==> m[k].leader in failed)
  }

  lemma FailOnceMore(m: Views, bs: seq<BrokerId>, m1: Views, b: BrokerId, m2: Views)
    requires m1.Keys == m.Keys && FailedEverywhere(m1, b, m2)
    requires forall k {:trigger m1[k]} :: k in m.Keys ==> FailedInTurn(m[k], bs, m1[k])
    ensures m2.Keys == m.Keys
    ensures forall k {:trigger m2[k]} :: k in m.Keys ==> FailedInTurn(m[k], bs + [b], m2[k])
  {
    forall k | k in m.Keys
      ensures FailedInTurn(m[k], bs + [b], m2[k])
    {
      assert (bs + [b])[..|bs|] == bs;
      assert FailedInTurn(m[k], bs, m1[k]) && Failed(m1[k], (bs + [b])[|bs + [b]| - 1], m2[k]);
    }
  }

  /** The failure of b makes this partition elect. */
  predicate Elects(s: State, b: BrokerId) {
    s.leader == b && (s.isr - {b} != {} || |s.replicas| > 0)
  }

  /** Exactly the elections are reported, each with the new leader. */
  ghost predicate Reports(m: Views, b: BrokerId, rest: set<Key>, now: Views, newLeaders: seq<(Key, BrokerId)>)
    requires now.Keys == m.Keys
  {
    forall k, leader :: (k, leader) in newLeaders <==>
      k in m.Keys - rest && Elects(m[k], b) && now[k].leader == leader
  }

  /** handle_broker_failure with the partitions in `rest` still to visit. */
  ghost predicate Partway(m: Views, b: BrokerId, rest: set<Key>, now: Views, newLeaders: seq<(Key, BrokerId)>) {
    && rest <= m.Keys == now.Keys
    && (forall k {:trigger now[k]} :: k in m.Keys ==> if k in rest then now[k] == m[k] else Failed(m[k], b, now[k]))
    && Reports(m, b, rest, now, newLeaders)
  }

  lemma PartwayStep(m: Views, b: BrokerId, rest: set<Key>, now: Views, newLeaders: seq<(Key, BrokerId)>,
                    k: Key, now': Views, elected: Option<BrokerId>)
    requires Partway(m, b, rest, now, newLeaders) && k in rest
    requires k in now' && Failed(now[k], b, now'[k]) && now' == now[k := now'[k]]
    requires elected == if Elects(now[k], b) then Some(now'[k].leader) else None
    ensures Partway(m, b, rest - {k}, now', if elected.Some? then newLeaders + [(k, elected.value)] else newLeaders)
  {
    assert now[k] == m[k];
  }

  // ---------------------------------------------------------------- the class

  class ClusterMetadata {
    var partitionStates: map<Key, PartitionReplicaState>
    const lagThreshold: u64

    /** Each partition has its own state object. */
    ghost predicate Valid()
      reads this
    {
      forall j, k :: j in partitionStates && k in partitionStates && j != k ==> partitionStates[j] != partitionStates[k]
    }

    ghost function View(): (m: Views)
      reads this, partitionStates.Values
      ensures m.Keys == partitionStates.Keys
      ensures forall k :: k in m ==> m[k] == partitionStates[k].View()
    {
      map k | k in partitionStates :: partitionStates[k].View()
    }

    constructor (lagThreshold: u64)
      ensures Valid() && View() == map[] && this.lagThreshold == lagThreshold
    {
      this.lagThreshold := lagThreshold;
      partitionStates := map[];
    }

    /** set_partition_replicas for a partition not seen before. */
    method AddPartition(k: Key, leader: BrokerId, replicas: seq<BrokerId>)
      requires Valid() && k !in partitionStates
      modifies this`partitionStates
      ensures Valid() && View() == old(View())[k := Initial(leader, replicas)]
    {
      var state := new PartitionReplicaState(leader, replicas);
      partitionStates := partitionStates[k := state];
    }

    method UpdateReplicaOffset(k: Key, b: BrokerId, offset: nat)
      requires Valid() && offset + lagThreshold < TWO_64
      modifies if k in partitionStates then {partitionStates[k]} else {}
      ensures k !in partitionStates ==> View() == old(View())
      ensures k in partitionStates ==>
                && Reported(old(View())[k], b, offset, lagThreshold, View()[k])
                && View() == old(View())[k := View()[k]]
    {
      if k in partitionStates {
        partitionStates[k].UpdateReplicaOffset(b, offset, lagThreshold);
      }
    }

    /** The turn of one partition in handle_broker_failure. */
    method FailAt(k: Key, failed: BrokerId) returns (elected: Option<BrokerId>)
      requires Valid() && k in partitionStates
      modifies partitionStates[k]
      ensures Failed(old(View()[k]), failed, View()[k])
      ensures View() == old(View())[k := View()[k]]
      ensures elected == if Elects(old(View())[k], failed) then Some(View()[k].leader) else None
    {
      ghost var s := partitionStates[k].View();
      elected := partitionStates[k].HandleFailure(failed);
      ghost var s' := partitionStates[k].View();
      assert Failed(s, failed, s') && View()[k] == s';
    }

    /** Visits every partition, in any order. */
    method HandleBrokerFailure(failed: BrokerId) returns (newLeaders: seq<(Key, BrokerId)>)
      requires Valid()
      modifies partitionStates.Values
      ensures FailedEverywhere(old(View()), failed, View())
      ensures Reports(old(View()), failed, {}, View(), newLeaders)
    {
      newLeaders := [];
      var rest := partitionStates.Keys;
      ghost var before := View();
      while rest != {}
        invariant Partway(before, failed, rest, View(), newLeaders)
        decreases rest
      {
        var k :| k in rest;
        ghost var now := View();
        assert partitionStates[k] in partitionStates.Values;
        var elected := FailAt(k, failed);
        PartwayStep(before, failed, rest, now, newLeaders, k, View(), elected);
        newLeaders := if elected.Some? then newLeaders + [(k, elected.value)] else newLeaders;
        rest := rest - {k};
      }
    }

    /** A copy of every partition's leader, taken before any election, in any
        order. */
    method Leaders() returns (snapshot: seq<BrokerId>)
      ensures forall b :: b in snapshot <==> LeadsSome(View(), b)
    {
      snapshot := [];
      var rest := partitionStates.Keys;
      ghost var m := View();
      while rest != {}
        invariant rest <= m.Keys == partitionStates.Keys && m == View()
        invariant forall k :: k in m.Keys - rest ==> m[k].leader in snapshot
        invariant forall b :: b in snapshot ==> LeadsSome(m, b)
        decreases rest
      {
        var k :| k in rest;
        assert partitionStates[k].leader == m[k].leader;
        snapshot := snapshot + [partitionStates[k].leader];
        rest := rest - {k};
      }
    }

    /** check_broker_health: fails every dead leader of the stale snapshot. */
    method CheckBrokerHealth(alive: set<BrokerId>) returns (ghost failed: seq<BrokerId>)
      requires Valid()
      modifies partitionStates.Values
      ensures Checked(old(View()), alive, failed, View())
    {
      var snapshot := Leaders();
      ghost var before := View();
      failed := [];
      for i := 0 to |snapshot|
        invariant Checking(before, alive, snapshot, i, failed, View())
      {
        ghost var now := View();
        if snapshot[i] !in alive {
          var newLeaders := HandleBrokerFailure(snapshot[i]);
        }
        CheckingStep(before, alive, snapshot, i, failed, now, View());
        failed := if snapshot[i] in alive then failed else failed + [snapshot[i]];
      }
      SnapshotIsChecked(before, alive, snapshot, failed, View());
    }
  }

  /** The first i leaders of the snapshot have been looked at. */
  ghost predicate Checking(m: Views, alive: set<BrokerId>, snapshot: seq<BrokerId>, i: nat, failed: seq<BrokerId>, m': Views) {
    && i <= |snapshot| && m'.Keys == m.Keys
    && (forall b :: b in failed ==> b !in alive && b in snapshot)
    && (forall j :: 0 <= j < i && snapshot[j] !in alive ==> snapshot[j] in failed)
    && (forall k {:trigger m'[k]} :: k in m.Keys ==> FailedInTurn(m[k], failed, m'[k]))
  }

  lemma CheckingStep(m: Views, alive: set<BrokerId>, snapshot: seq<BrokerId>, i: nat, failed: seq<BrokerId>,
                     now: Views, now': Views)
    requires i < |snapshot| && Checking(m, alive, snapshot, i, failed, now)
    requires if snapshot[i] in alive then now' == now else FailedEverywhere(now, snapshot[i], now')
    ensures Checking(m, alive, snapshot, i + 1, if snapshot[i] in alive then failed else failed + [snapshot[i]], now')
  {
    if snapshot[i] !in alive {
      FailOnceMore(m, failed, now, snapshot[i], now');
    }
  }

  lemma SnapshotIsChecked(m: Views, alive: set<BrokerId>, snapshot: seq<BrokerId>, failed: seq<BrokerId>, m': Views)
    requires Checking(m, alive, snapshot, |snapshot|, failed, m')
    requires forall b :: b in snapshot <==> LeadsSome(m, b)
    ensures Checked(m, alive, failed, m')
  {
    forall k | k in m.Keys && m[k].leader !in alive
      ensures m[k].leader in failed
    {
      assert LeadsSome(m, m[k].leader);
    }
  }

  // ------------------------------------------------------------- convergence

  /** Members of the in-sync set that are dead: the decreasing measure. */
  function DeadInSync(s: State, alive: set<BrokerId>): set<BrokerId> {
    s.isr - alive
  }

  ghost predicate Recoverable(s: State, alive: set<BrokerId>) {
    s.leader in s.isr && s.isr * alive != {}
  }

  /** Failing dead brokers only ever removes them from the in-sync set. */
  lemma {:induction false} FailuresOfDead(s: State, alive: set<BrokerId>, bs: seq<BrokerId>, s': State)
    requires Recoverable(s, alive) && FailedInTurn(s, bs, s')
    requires forall b :: b in bs ==> b !in alive
    ensures Recoverable(s', alive) && s'.isr == s.isr - (set b | b in bs)
    ensures s.leader in alive ==> s'.leader == s.leader
  {
    if |bs| > 0 {
      var front, last := bs[..|bs| - 1], bs[|bs| - 1];
      var t :| FailedInTurn(s, front, t) && Failed(t, last, s');
      FailuresOfDead(s, alive, front, t);
      assert t.isr * alive == (t.isr - {last}) * alive;
      assert forall b :: b in bs <==> b in front || b == last;
    }
  }

  /** A tick either finds the leader alive and keeps it, or takes at least the
      dead leader out of the in-sync set. */
  lemma TickMakesProgress(s: State, alive: set<BrokerId>, failed: seq<BrokerId>, s': State)
    requires Recoverable(s, alive) && FailedInTurn(s, failed, s')
    requires forall b :: b in failed ==> b !in alive
    requires s.leader !in alive ==> s.leader in failed
    ensures Recoverable(s', alive)
    ensures s.leader in alive ==> s'.leader == s.leader
    ensures DeadInSync(s', alive) <= DeadInSync(s, alive)
    ensures s.leader !in alive ==> |DeadInSync(s', alive)| < |DeadInSync(s, alive)|
  {
    FailuresOfDead(s, alive, failed, s');
    if s.leader !in alive {
      var fewer := DeadInSync(s, alive) - {s.leader};
      assert DeadInSync(s', alive) <= fewer;
      SubsetSize(DeadInSync(s', alive), fewer);
    }
  }

  lemma {:induction false} SubsetSize<T>(a: set<T>, b: set<T>)
    requires a <= b
    ensures |a| <= |b|
  {
    if a != {} {
      var x :| x in a;
      SubsetSize(a - {x}, b - {x});
    }
  }

  /** Repeated health checks with a fixed set of live brokers and no reports. */
  ghost predicate Ticks(ms: seq<Views>, alive: set<BrokerId>, failures: seq<seq<BrokerId>>) {
    |ms| == |failures| + 1
    && forall i :: 0 <= i < |failures| ==> Checked(ms[i], alive, failures[i], ms[i + 1])
  }

  lemma {:induction false} Converging(ms: seq<Views>, alive: set<BrokerId>, failures: seq<seq<BrokerId>>, k: Key, i: nat)
    requires Ticks(ms, alive, failures) && i < |ms| && k in ms[0].Keys && Recoverable(ms[0][k], alive)
    ensures k in ms[i].Keys && Recoverable(ms[i][k], alive)
    ensures ms[i][k].leader in alive || |DeadInSync(ms[i][k], alive)| + i <= |DeadInSync(ms[0][k], alive)|
  {
    if i > 0 {
      Converging(ms, alive, failures, k, i - 1);
      assert Checked(ms[i - 1], alive, failures[i - 1], ms[i]);
      var s, s' := ms[i - 1][k], ms[i][k];
      TickMakesProgress(s, alive, failures[i - 1], s');
    }
  }

  lemma DeadLeaderCounts(s: State, alive: set<BrokerId>)
    requires s.leader in s.isr
    ensures s.leader !in alive ==> |DeadInSync(s, alive)| > 0
  {
    if s.leader !in alive {
      assert s.leader in DeadInSync(s, alive);
    }
  }

  /** Every partition whose in-sync set has a live member has a live leader
      after as many ticks as that set has dead members, and from then on,
      even though a tick works from a stale snapshot and may elect a dead
      broker on the way. */
  lemma LiveLeaderWithin(ms: seq<Views>, alive: set<BrokerId>, failures: seq<seq<BrokerId>>, k: Key, i: nat)
    requires Ticks(ms, alive, failures) && i < |ms| && k in ms[0].Keys && Recoverable(ms[0][k], alive)
    requires i >= |DeadInSync(ms[0][k], alive)|
    ensures k in ms[i].Keys && ms[i][k].leader in alive && ms[i][k].leader in ms[i][k].isr
  {
    Converging(ms, alive, failures, k, i);
    DeadLeaderCounts(ms[i][k], alive);
  }
}
