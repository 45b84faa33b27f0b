/** The watermark bound of ReplicaState.WatermarkBound is reached, for every
    number of elections, and runs that fail its two conditions can lose
    everything. */
module WatermarkExact {
  import opened Bytes
  import opened ReplicaState

  lemma RunStep(ss: seq<State>, es: seq<Event>, lagThreshold: nat, e: Event, s: State)
    requires Run(ss, es, lagThreshold) && Clean(ss, es) && Growing(ss, es)
    requires Next(ss[|es|], e, lagThreshold, s) && CleanStep(ss[|es|], e) && Grows(ss[|es|], e)
    ensures Run(ss + [s], es + [e], lagThreshold) && Clean(ss + [s], es + [e]) && Growing(ss + [s], es + [e])
  {
    var ss', es' := ss + [s], es + [e];
    forall i | 0 <= i < |es'|
      ensures Next(ss'[i], es'[i], lagThreshold, ss'[i + 1]) && CleanStep(ss'[i], es'[i]) && Grows(ss'[i], es'[i])
    {
      if i < |es| {
        assert Next(ss[i], es[i], lagThreshold, ss[i + 1]) && CleanStep(ss[i], es[i]) && Grows(ss[i], es[i]);
        assert ss'[i] == ss[i] && ss'[i + 1] == ss[i + 1] && es'[i] == es[i];
      }
    }
  }

  function Brokers(n: nat): seq<BrokerId>
    requires n <= TWO_32
  {
    seq(n, i requires 0 <= i < n => i)
  }

  /** The offset broker b ends up with: one threshold below broker b - 1. */
  function Step(n: nat, t: nat, b: nat): nat
    requires b <= n
  {
    Slack(n - b, t)
  }

  /** Brokers 0..j + 1 have climbed to their steps; the others are at 0. */
  function Ladder(n: nat, t: nat, j: int): map<BrokerId, nat>
    requires n <= TWO_32
  {
    map b: BrokerId | 0 <= b < n :: if b <= j + 1 then Step(n, t, b) else 0
  }

  /** Followers 1..i have fallen out of the in-sync set of leader 0. */
  function Shed(n: nat, t: nat, i: nat): State
    requires 2 <= n <= TWO_32 && i < n
  {
    State(0, Brokers(n), (set b | b in Ladder(n, t, -1).Keys && (b == 0 || b > i)), Ladder(n, t, -1),
          if i == n - 1 then Step(n, t, 0) else 0, 0)
  }

  /** Leader j, one follower a threshold behind, after j elections. */
  function Rung(n: nat, t: nat, j: nat): State
    requires 2 <= n <= TWO_32 && j + 2 <= n
  {
    State(j, Brokers(n), {j, j + 1}, Ladder(n, t, j), Step(n, t, j + 1), j)
  }

  lemma FirstReport(n: nat, t: nat)
    requires 2 <= n <= TWO_32 && t > 0
    ensures Initial(0, Brokers(n)).leader in Brokers(n)
    ensures Next(Initial(0, Brokers(n)), Report(0, Step(n, t, 0)), t, Shed(n, t, 0))
  {
    var s, s' := Initial(0, Brokers(n)), Shed(n, t, 0);
    assert Brokers(n)[0] == 0;
    assert forall b: BrokerId :: b in Brokers(n) <==> 0 <= b < n by {
      forall b: BrokerId | 0 <= b < n
        ensures b in Brokers(n)
      {
        assert Brokers(n)[b] == b;
      }
    }
    assert s.offsets[0 := Step(n, t, 0)] == s'.offsets;
    assert s'.isr == s.isr + {0};
    assert 1 in s'.isr && s'.offsets[1] == 0;
  }

  lemma ShedStep(n: nat, t: nat, i: nat)
    requires 2 <= n <= TWO_32 && t > 0 && i + 1 < n
    ensures Next(Shed(n, t, i), Report(i + 1, 0), t, Shed(n, t, i + 1))
    ensures Grows(Shed(n, t, i), Report(i + 1, 0))
  {
    var s, s' := Shed(n, t, i), Shed(n, t, i + 1);
    assert s.offsets[i + 1 := 0] == s.offsets;
    assert Slack(n - 1, t) == Slack(n - 2, t) + t;
    assert Step(n, t, 0) == Slack(n - 2, t) + t + t;
    assert s'.isr == s.isr - {i + 1};
    assert 0 in s'.isr;
    if i + 1 == n - 1 {
      assert s'.isr == {0};
    } else {
      assert i + 2 in s'.isr && s'.offsets[i + 2] == 0;
    }
  }

  lemma FirstRung(n: nat, t: nat)
    requires 2 <= n <= TWO_32 && t > 0
    ensures Next(Shed(n, t, n - 1), Report(1, Step(n, t, 1)), t, Rung(n, t, 0))
    ensures Grows(Shed(n, t, n - 1), Report(1, Step(n, t, 1)))
  {
    var s, s' := Shed(n, t, n - 1), Rung(n, t, 0);
    assert s.offsets[1 := Step(n, t, 1)] == s'.offsets;
    assert s.isr == {0};
    assert s'.isr == s.isr + {1};
    assert 1 in s'.isr && 0 in s'.isr;
  }

  /** The leader fails, its follower takes over, the next broker joins. */
  lemma NextRung(n: nat, t: nat, j: nat) returns (mid: State)
    requires 2 <= n <= TWO_32 && t > 0 && j + 3 <= n
    ensures Next(Rung(n, t, j), Failure(j), t, mid) && CleanStep(Rung(n, t, j), Failure(j))
    ensures Next(mid, Report(j + 2, Step(n, t, j + 2)), t, Rung(n, t, j + 1))
    ensures Grows(mid, Report(j + 2, Step(n, t, j + 2)))
  {
    var s, s' := Rung(n, t, j), Rung(n, t, j + 1);
    mid := s.(leader := j + 1, isr := {j + 1}, epoch := j + 1);
    assert s.isr - {j} == {j + 1};
    assert mid.offsets[j + 2 := Step(n, t, j + 2)] == s'.offsets;
    assert s'.isr == mid.isr + {j + 2};
    assert j + 2 in s'.isr && j + 1 in s'.isr;
  }

  lemma {:induction false} RunToShed(n: nat, t: nat, i: nat) returns (ss: seq<State>, es: seq<Event>)
    requires 2 <= n <= TWO_32 && t > 0 && i < n
    ensures Run(ss, es, t) && Clean(ss, es) && Growing(ss, es) && ss[|es|] == Shed(n, t, i)
  {
    if i == 0 {
      FirstReport(n, t);
      ss, es := [Initial(0, Brokers(n)), Shed(n, t, 0)], [Report(0, Step(n, t, 0))];
      assert Next(ss[0], es[0], t, ss[1]);
    } else {
      ss, es := RunToShed(n, t, i - 1);
      ShedStep(n, t, i - 1);
      RunStep(ss, es, t, Report(i, 0), Shed(n, t, i));
      ss, es := ss + [Shed(n, t, i)], es + [Report(i, 0)];
    }
  }

  lemma ClimbOne(n: nat, t: nat, j: nat, ss: seq<State>, es: seq<Event>) returns (ss': seq<State>, es': seq<Event>)
    requires 2 <= n <= TWO_32 && t > 0 && j + 3 <= n
    requires Run(ss, es, t) && Clean(ss, es) && Growing(ss, es) && ss[|es|] == Rung(n, t, j)
    ensures Run(ss', es', t) && Clean(ss', es') && Growing(ss', es') && ss'[|es'|] == Rung(n, t, j + 1) && ss <= ss'
  {
    var mid := NextRung(n, t, j);
    RunStep(ss, es, t, Failure(j), mid);
    ss', es' := ss + [mid], es + [Failure(j)];
    RunStep(ss', es', t, Report(j + 2, Step(n, t, j + 2)), Rung(n, t, j + 1));
    ss', es' := ss' + [Rung(n, t, j + 1)], es' + [Report(j + 2, Step(n, t, j + 2))];
  }

  /** A run up to rung j that passed through the top of the ladder at state i. */
  lemma {:induction false} RunToRung(n: nat, t: nat, j: nat) returns (ss: seq<State>, es: seq<Event>, i: nat)
    requires 2 <= n <= TWO_32 && t > 0 && j + 2 <= n
    ensures Run(ss, es, t) && Clean(ss, es) && Growing(ss, es) && ss[|es|] == Rung(n, t, j)
    ensures i < |ss| && ss[i].highWatermark == Step(n, t, 0)
  {
    if j == 0 {
      ss, es := RunToShed(n, t, n - 1);
      i := |es|;
      FirstRung(n, t);
      RunStep(ss, es, t, Report(1, Step(n, t, 1)), Rung(n, t, 0));
      ss, es := ss + [Rung(n, t, 0)], es + [Report(1, Step(n, t, 1))];
    } else {
      ss, es, i := RunToRung(n, t, j - 1);
      ss, es := ClimbOne(n, t, j - 1, ss, es);
    }
  }

  /** For every threshold and every number of elections some clean run with
      growing reports loses exactly (epoch + 1) thresholds. */
  lemma BoundIsReached(lagThreshold: nat, epoch: nat) returns (ss: seq<State>, es: seq<Event>, i: nat)
    requires lagThreshold > 0 && epoch + 2 <= TWO_32
    ensures Run(ss, es, lagThreshold) && Clean(ss, es) && Growing(ss, es) && i < |ss|
    ensures ss[|es|].epoch == epoch
    ensures ss[i].highWatermark == ss[|es|].highWatermark + (epoch + 1) * lagThreshold
  {
    var n := epoch + 2;
    ss, es, i := RunToRung(n, lagThreshold, epoch);
    SlackIsProduct(n, lagThreshold);
    SlackIsProduct(1, lagThreshold);
    assert n * lagThreshold == (epoch + 1) * lagThreshold + lagThreshold;
  }

  /** Without safe elections nothing bounds the loss: for every threshold and
      every size, an election that finds the in-sync set empty can pick a leader
      that holds none of what was acknowledged. */
  lemma EmptySetElectionLosesAll(lagThreshold: nat, lost: nat) returns (ss: seq<State>, es: seq<Event>)
    requires lost > lagThreshold
    ensures Run(ss, es, lagThreshold) && Growing(ss, es) && |es| == 3
    ensures ss[2].highWatermark == lost && CleanStep(ss[0], es[0]) && CleanStep(ss[1], es[1])
    ensures !SafeStep(ss[2], es[2])
    ensures ss[3].leader in ss[3].offsets && ss[3].offsets[ss[3].leader] == 0
  {
    var s0 := Initial(2, [1, 2]);
    var s1 := s0.(offsets := map[1 := 0, 2 := lost]);
    var s2 := s1.(isr := {2}, highWatermark := lost);
    var s3 := s2.(leader := 1, isr := {1}, epoch := 1);
    ss, es := [s0, s1, s2, s3], [Report(2, lost), Report(1, 0), Failure(2)];
    assert s0.isr == {1, 2} && s0.offsets == map[1 := 0, 2 := 0];
    assert s0.offsets[2 := lost] == s1.offsets && s1.offsets[1 := 0] == s1.offsets;
    assert s0.isr + {2} == s1.isr && s1.isr - {1} == {2} && s2.isr - {2} == {};
    assert 1 in s1.isr && 2 in s2.isr;
    assert Next(s0, es[0], lagThreshold, s1);
    assert Next(s1, es[1], lagThreshold, s2);
    assert Next(s2, es[2], lagThreshold, s3);
    assert [1 as BrokerId, 2][1] == 2;
  }

  /** Nor can a leader's reports be allowed to shrink: one late report of a
      smaller offset takes the watermark all the way down, even with threshold 0. */
  lemma ShrinkingReportLosesAll(lost: nat) returns (ss: seq<State>, es: seq<Event>)
    requires lost > 0
    ensures Run(ss, es, 0) && Clean(ss, es) && |es| == 2 && !LeaderGrows(ss[1], es[1]) && !KeepsUp(ss[1], es[1], 0)
    ensures ss[1].highWatermark == lost && ss[2].highWatermark == 0
  {
    var s0 := Initial(1, [1]);
    var s1 := s0.(offsets := map[1 := lost], highWatermark := lost);
    var s2 := s0;
    ss, es := [s0, s1, s2], [Report(1, lost), Report(1, 0)];
    assert s0.isr == {1} && s0.offsets == map[1 := 0];
    assert s0.offsets[1 := lost] == s1.offsets && s1.offsets[1 := 0] == s2.offsets;
    assert s0.isr + {1} == s0.isr && 1 in s0.isr;
    assert Next(s0, es[0], 0, s1) && Next(s1, es[1], 0, s2);
    assert [1 as BrokerId][0] == 1;
  }
}
