/** Round-robin placement of replicas: broker/src/replication.rs. */
module ReplicaAssignment {
  import opened Bytes
  import opened ReplicaState

  ghost predicate NoDuplicates(s: seq<BrokerId>) {
    forall i, j :: 0 <= i < j < |s| ==> s[i] != s[j]
  }

  function Min(a: nat, b: nat): nat {
    if a < b then a else b
  }

  /** The place in the live list of replica i of a partition. */
  function Place(partition: nat, i: nat, n: nat): nat
    requires n > 0
  {
    (partition + i) % n
  }

  /** The replicas of a partition, the leader first. */
  function Replicas(alive: seq<BrokerId>, factor: nat, partition: nat): (replicas: seq<BrokerId>)
    requires |alive| > 0
    ensures |replicas| == Min(factor, |alive|)
  {
    seq(Min(factor, |alive|), i requires 0 <= i < |alive| => alive[Place(partition, i, |alive|)])
  }

  /** assign_partition_replicas. With live brokers and factor 0 the source
      panics, so the factor must be positive unless no broker is alive. */
  method Assign(alive: seq<BrokerId>, self: BrokerId, factor: u32, partition: u32)
    returns (leader: BrokerId, replicas: seq<BrokerId>)
    requires NoDuplicates(alive) && (alive == [] || factor > 0)
    ensures |replicas| > 0 && leader == replicas[0]
    ensures alive == [] ==> replicas == [self]
    ensures alive != [] ==> replicas == Replicas(alive, factor, partition) && NoDuplicates(replicas)
    ensures alive != [] ==>
              && leader == alive[partition % |alive|]
              && |replicas| == (if factor < |alive| then factor else |alive|)
              && forall i :: 0 <= i < |replicas| ==> replicas[i] == alive[(partition + i) % |alive|]
  {
    var n := |alive|;
    if n == 0 {
      return self, [self];
    }
    var count := if factor < n then factor else n;
    var start := partition % n;
    replicas := [];
    for i := 0 to count
      invariant |replicas| == i
      invariant forall j :: 0 <= j < i ==> replicas[j] == alive[Place(partition, j, n)]
    {
      StartThenAdd(partition, i, n);
      replicas := replicas + [alive[(start + i) % n]];
    }
    forall i, j | 0 <= i < j < |replicas|
      ensures replicas[i] != replicas[j]
    {
      PlacesDiffer(partition, i, j, n);
    }
    leader := replicas[0];
  }

  /** Moving on by d < n places wraps around at most once. */
  lemma MoveOn(p: nat, d: nat, n: nat)
    requires n > 0 && d < n
    ensures (p + d) % n == if p % n + d < n then p % n + d else p % n + d - n
  {
    var q := p / n;
    assert p == q * n + p % n;
    if p % n + d < n {
      QuotientIs(p + d, n, q, p % n + d);
    } else {
      assert (q + 1) * n == q * n + n;
      QuotientIs(p + d, n, q + 1, p % n + d - n);
    }
  }

  lemma StartThenAdd(p: nat, i: nat, n: nat)
    requires n > 0 && i < n
    ensures (p % n + i) % n == (p + i) % n
  {
    MoveOn(p, i, n);
    if p % n + i < n {
      QuotientIs(p % n + i, n, 0, p % n + i);
    } else {
      QuotientIs(p % n + i, n, 1, p % n + i - n);
    }
  }

  lemma PlacesDiffer(p: nat, i: nat, j: nat, n: nat)
    requires i < j < i + n
    ensures Place(p, i, n) != Place(p, j, n)
  {
    MoveOn(p + i, j - i, n);
  }

  // --------------------------------------------------------------- balance

  predicate Lands(partition: nat, i: nat, b: nat, n: nat)
    requires n > 0
  {
    Place(partition, i, n) == b
  }

  /** With distinct brokers, counting places is counting brokers. */
  lemma LandsOnBroker(alive: seq<BrokerId>, partition: nat, i: nat, b: nat)
    requires NoDuplicates(alive) && b < |alive|
    ensures alive[Place(partition, i, |alive|)] == alive[b] <==> Lands(partition, i, b, |alive|)
  {
    var p := Place(partition, i, |alive|);
    assert p != b ==> alive[p] != alive[b];
  }

  /** How many of `count` consecutive partitions put replica i at place b. */
  function Hits(first: nat, count: nat, i: nat, b: nat, n: nat): nat
    requires n > 0
  {
    if count == 0 then 0
    else Hits(first, count - 1, i, b, n) + if Lands(first + count - 1, i, b, n) then 1 else 0
  }

  /** n consecutive partitions put replica i at each place exactly once. */
  lemma OncePerRound(first: nat, i: nat, b: nat, n: nat)
    requires b < n
    ensures Hits(first, n, i, b, n) == 1
  {
    var r := Place(first, i, n);
    var at := if r <= b then first + b - r else first + n + b - r;
    forall p | first <= p < first + n
      ensures Lands(p, i, b, n) <==> p == at
    {
      MoveOn(first + i, p - first, n);
      assert first + i + (p - first) == p + i;
    }
    HitsUpTo(first, n, i, b, n, at);
  }

  lemma {:induction false} HitsUpTo(first: nat, count: nat, i: nat, b: nat, n: nat, at: nat)
    requires n > 0 && first <= at
    requires forall p: nat :: first <= p < first + count ==> (Lands(p, i, b, n) <==> p == at)
    ensures Hits(first, count, i, b, n) == if at < first + count then 1 else 0
  {
    if count > 0 {
      HitsUpTo(first, count - 1, i, b, n, at);
    }
  }

  lemma {:induction false} HitsSplit(first: nat, a: nat, c: nat, i: nat, b: nat, n: nat)
    requires n > 0
    ensures Hits(first, a + c, i, b, n) == Hits(first, a, i, b, n) + Hits(first + a, c, i, b, n)
  {
    if c > 0 {
      HitsSplit(first, a, c - 1, i, b, n);
    }
  }

  lemma {:induction false} BalancedFrom(first: nat, count: nat, i: nat, b: nat, c: nat, n: nat)
    requires b < n && c < n
    ensures Hits(first, count, i, b, n) <= Hits(first, count, i, c, n) + 1
    decreases count
  {
    OncePerRound(first, i, b, n);
    OncePerRound(first, i, c, n);
    if count >= n {
      HitsSplit(first, n, count - n, i, b, n);
      HitsSplit(first, n, count - n, i, c, n);
      BalancedFrom(first + n, count - n, i, b, c, n);
    } else {
      HitsSplit(first, count, n - count, i, b, n);
    }
  }

  /** How many replicas of `count` consecutive partitions are at place b. */
  function Load(first: nat, count: nat, replicas: nat, b: nat, n: nat): nat
    requires n > 0
  {
    if replicas == 0 then 0
    else Load(first, count, replicas - 1, b, n) + Hits(first, count, replicas - 1, b, n)
  }

  lemma {:induction false} LoadPerRound(first: nat, replicas: nat, b: nat, n: nat)
    requires b < n
    ensures Load(first, n, replicas, b, n) == replicas
  {
    if replicas > 0 {
      LoadPerRound(first, replicas - 1, b, n);
      OncePerRound(first, replicas - 1, b, n);
    }
  }

  // ------------------------------------------------------- from places to brokers

  /** How many of `count` consecutive partitions a broker leads. */
  function Led(alive: seq<BrokerId>, factor: nat, first: nat, count: nat, broker: BrokerId): nat
    requires |alive| > 0 && factor > 0
  {
    if count == 0 then 0
    else Led(alive, factor, first, count - 1, broker)
         + if Replicas(alive, factor, first + count - 1)[0] == broker then 1 else 0
  }

  /** How many of `count` consecutive partitions a broker has a replica of. */
  function Held(alive: seq<BrokerId>, factor: nat, first: nat, count: nat, broker: BrokerId): nat
    requires |alive| > 0
  {
    if count == 0 then 0
    else Held(alive, factor, first, count - 1, broker)
         + if broker in Replicas(alive, factor, first + count - 1) then 1 else 0
  }

  lemma {:induction false} LedIsHits(alive: seq<BrokerId>, factor: nat, first: nat, count: nat, b: nat)
    requires NoDuplicates(alive) && b < |alive| && factor > 0
    ensures Led(alive, factor, first, count, alive[b]) == Hits(first, count, 0, b, |alive|)
  {
    if count > 0 {
      LedIsHits(alive, factor, first, count - 1, b);
      LandsOnBroker(alive, first + count - 1, 0, b);
    }
  }

  /** Whether one of the first r replicas of a partition is at place b. */
  function Reaches(partition: nat, r: nat, b: nat, n: nat): nat
    requires n > 0
  {
    if r == 0 then 0 else Reaches(partition, r - 1, b, n) + if Lands(partition, r - 1, b, n) then 1 else 0
  }

  /** At most one does, as the places of one partition differ. */
  lemma {:induction false} ReachesOnce(partition: nat, r: nat, b: nat, n: nat)
    requires 0 < n && r <= n
    ensures Reaches(partition, r, b, n) == if exists i: nat :: i < r && Lands(partition, i, b, n) then 1 else 0
  {
    if r > 0 {
      ReachesOnce(partition, r - 1, b, n);
      if Lands(partition, r - 1, b, n) {
        forall i: nat | i < r - 1
          ensures !Lands(partition, i, b, n)
        {
          PlacesDiffer(partition, i, r - 1, n);
        }
      }
    }
  }

  lemma {:induction false} LoadOneMore(first: nat, count: nat, r: nat, b: nat, n: nat)
    requires n > 0 && count > 0
    ensures Load(first, count, r, b, n) == Load(first, count - 1, r, b, n) + Reaches(first + count - 1, r, b, n)
  {
    if r > 0 {
      LoadOneMore(first, count, r - 1, b, n);
    }
  }

  lemma {:induction false} NoLoad(first: nat, r: nat, b: nat, n: nat)
    requires n > 0
    ensures Load(first, 0, r, b, n) == 0
  {
    if r > 0 {
      NoLoad(first, r - 1, b, n);
    }
  }

  lemma {:induction false} HeldIsLoad(alive: seq<BrokerId>, factor: nat, first: nat, count: nat, b: nat)
    requires NoDuplicates(alive) && b < |alive|
    ensures Held(alive, factor, first, count, alive[b]) == Load(first, count, Min(factor, |alive|), b, |alive|)
  {
    var n, r := |alive|, Min(factor, |alive|);
    if count == 0 {
      NoLoad(first, r, b, n);
    } else {
      var p := first + count - 1;
      HeldIsLoad(alive, factor, first, count - 1, b);
      LoadOneMore(first, count, r, b, n);
      ReachesOnce(p, r, b, n);
      forall i: nat | i < r
        ensures Replicas(alive, factor, p)[i] == alive[b] <==> Lands(p, i, b, n)
      {
        LandsOnBroker(alive, p, i, b);
      }
      assert alive[b] in Replicas(alive, factor, p) <==> exists i: nat :: i < r && Lands(p, i, b, n);
    }
  }

  /** Of any partitions in a row, any two live brokers lead the same number,
      give or take one. */
  lemma LeadersBalanced(alive: seq<BrokerId>, factor: nat, first: nat, count: nat, broker: BrokerId, other: BrokerId)
    requires NoDuplicates(alive) && factor > 0 && broker in alive && other in alive
    ensures Led(alive, factor, first, count, broker) <= Led(alive, factor, first, count, other) + 1
  {
    var b: nat :| b < |alive| && alive[b] == broker;
    var c: nat :| c < |alive| && alive[c] == other;
    LedIsHits(alive, factor, first, count, b);
    LedIsHits(alive, factor, first, count, c);
    BalancedFrom(first, count, 0, b, c, |alive|);
  }

  /** Any n partitions in a row give each of n live brokers exactly as many
      replicas as a partition has. */
  lemma EqualLoadPerRound(alive: seq<BrokerId>, factor: nat, first: nat, broker: BrokerId)
    requires NoDuplicates(alive) && broker in alive
    ensures Held(alive, factor, first, |alive|, broker) == Min(factor, |alive|)
  {
    var b: nat :| b < |alive| && alive[b] == broker;
    HeldIsLoad(alive, factor, first, |alive|, b);
    LoadPerRound(first, Min(factor, |alive|), b, |alive|);
  }
}
