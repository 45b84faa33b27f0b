/** Retention: storage/src/retention.rs. The clock is read once a segment; the
    readings are an input. */
module Retention {
  import opened Bytes

  /** A duration in nanoseconds. */
  type Duration = nat

  function FromSecs(seconds: nat): Duration {
    seconds * 1_000_000_000
  }

  datatype Policy =
    | Time(maxAge: Duration)
    | Size(maxSize: u64)
    | Both(ageLimit: Duration, sizeLimit: u64)
    | Unlimited

  datatype Config = Config(policy: Policy, minSegments: nat)
  {
    predicate TooOld(age: Duration) {
      match policy
      case Time(maxAge) => age > maxAge
      case Both(ageLimit, _) => age > ageLimit
      case _ => false
    }

    predicate TooBig(total: nat) {
      match policy
      case Size(maxSize) => total > maxSize
      case Both(_, sizeLimit) => total > sizeLimit
      case _ => false
    }

    /** should_delete_segment: never at or below the floor, and otherwise when
        either of the policy's limits is exceeded. */
    predicate ShouldDelete(age: Duration, total: nat, count: nat)
      ensures ShouldDelete(age, total, count) <==> count > minSegments && (TooOld(age) || TooBig(total))
    {
      if count <= minSegments then false
      else
        match policy
        case Unlimited => false
        case Time(maxAge) => age > maxAge
        case Size(maxSize) => total > maxSize
        case Both(ageLimit, sizeLimit) => age > ageLimit || total > sizeLimit
    }
  }

  datatype SegmentMetadata = SegmentMetadata(baseOffset: u64, size: u64, createdAt: u64)
  {
    /** Whole seconds, and zero for a segment created in the clock's future. */
    function Age(now: u64): Duration {
      FromSecs(if now < createdAt then 0 else now - createdAt)
    }
  }

  function Total(segments: seq<SegmentMetadata>): nat {
    if |segments| == 0 then 0 else segments[0].size + Total(segments[1..])
  }

  /** Whether the policy gives up segment i, oldest of those still there. */
  predicate Condemns(config: Config, segments: seq<SegmentMetadata>, clock: seq<u64>, i: nat)
    requires i < |segments| == |clock|
  {
    config.ShouldDelete(segments[i].Age(clock[i]), Total(segments[i..]), |segments| - i)
  }

  /** The policy gives up each of the first n segments and keeps the next. */
  ghost predicate Cut(config: Config, segments: seq<SegmentMetadata>, clock: seq<u64>, n: nat)
    requires |segments| == |clock|
  {
    && n <= |segments|
    && (forall i :: 0 <= i < n ==> Condemns(config, segments, clock, i))
    && (n < |segments| ==> !Condemns(config, segments, clock, n))
  }

  datatype RetentionManager = RetentionManager(config: Config)
  {
    method SegmentsToDelete(segments: seq<SegmentMetadata>, clock: seq<u64>) returns (toDelete: seq<u64>)
      requires |clock| == |segments|
      requires Total(segments) < TWO_64
      ensures Cut(config, segments, clock, |toDelete|)
      ensures forall i :: 0 <= i < |toDelete| ==> toDelete[i] == segments[i].baseOffset
    {
      if |segments| == 0 {
        return [];
      }
      toDelete := [];
      var totalSize: u64 := Sum(segments);
      var cumulative: u64 := totalSize;
      assert segments[0..] == segments;
      for i := 0 to |segments|
        invariant |toDelete| == i
        invariant cumulative == Total(segments[i..])
        invariant forall j :: 0 <= j < i ==> Condemns(config, segments, clock, j)
        invariant forall j :: 0 <= j < i ==> toDelete[j] == segments[j].baseOffset
      {
        var remaining := |segments| - i;
        if !config.ShouldDelete(segments[i].Age(clock[i]), cumulative, remaining) {
          break;
        }
        assert segments[i..][1..] == segments[i + 1..];
        toDelete := toDelete + [segments[i].baseOffset];
        cumulative := cumulative - segments[i].size;
      }
    }
  }

  method Sum(segments: seq<SegmentMetadata>) returns (total: u64)
    requires Total(segments) < TWO_64
    ensures total == Total(segments)
  {
    total := 0;
    assert segments[0..] == segments;
    for i := 0 to |segments|
      invariant total + Total(segments[i..]) == Total(segments)
    {
      assert segments[i..][1..] == segments[i + 1..];
      total := total + segments[i].size;
    }
  }

  // ------------------------------------------------------------------ results

  lemma {:induction false} TotalShrinks(segments: seq<SegmentMetadata>, i: nat, j: nat)
    requires i <= j <= |segments|
    ensures Total(segments[j..]) <= Total(segments[i..])
    decreases j - i
  {
    if i < j {
      assert segments[i..][1..] == segments[i + 1..];
      TotalShrinks(segments, i + 1, j);
    }
  }

  /** The same cut, taken one segment at a time off the front. */
  function DeleteCount(config: Config, segments: seq<SegmentMetadata>, clock: seq<u64>): (n: nat)
    requires |segments| == |clock|
    ensures n <= |segments|
  {
    if |segments| == 0 || !config.ShouldDelete(segments[0].Age(clock[0]), Total(segments), |segments|) then 0
    else 1 + DeleteCount(config, segments[1..], clock[1..])
  }

  lemma {:induction false} DeleteCountIsCut(config: Config, segments: seq<SegmentMetadata>, clock: seq<u64>)
    requires |segments| == |clock|
    ensures Cut(config, segments, clock, DeleteCount(config, segments, clock))
  {
    assert segments[0..] == segments;
    var n := DeleteCount(config, segments, clock);
    if n > 0 {
      DeleteCountIsCut(config, segments[1..], clock[1..]);
      forall i | 1 <= i <= n && i < |segments|
        ensures Condemns(config, segments, clock, i) == Condemns(config, segments[1..], clock[1..], i - 1)
      {
        assert segments[1..][i - 1..] == segments[i..];
      }
    }
  }

  /** The contract of SegmentsToDelete has exactly one answer. */
  lemma CutIsUnique(config: Config, segments: seq<SegmentMetadata>, clock: seq<u64>, n: nat)
    requires |segments| == |clock|
    ensures Cut(config, segments, clock, n) <==> n == DeleteCount(config, segments, clock)
  {
    DeleteCountIsCut(config, segments, clock);
  }

  /** At least minSegments segments stay, or all of them if there were fewer. */
  lemma FloorIsKept(config: Config, segments: seq<SegmentMetadata>, clock: seq<u64>, n: nat)
    requires |segments| == |clock| && Cut(config, segments, clock, n)
    ensures n > 0 ==> |segments| - n >= config.minSegments
  {
    if n > 0 {
      assert Condemns(config, segments, clock, n - 1);
    }
  }

  /** The segments from j on are over the size limit and above the floor. */
  predicate Over(config: Config, segments: seq<SegmentMetadata>, j: nat)
    requires j <= |segments| && config.policy.Size?
  {
    Total(segments[j..]) > config.policy.maxSize && |segments| - j > config.minSegments
  }

  /** Under a pure size limit the cut is the shortest one after which the rest
      fits the limit or is down to the floor. */
  lemma SizeCutIsShortest(config: Config, segments: seq<SegmentMetadata>, clock: seq<u64>, n: nat)
    requires |segments| == |clock| && n <= |segments| && config.policy.Size?
    ensures Cut(config, segments, clock, n) <==>
              (forall j :: 0 <= j < n ==> Over(config, segments, j)) && !Over(config, segments, n)
  {
    assert forall j :: 0 <= j < |segments| ==> (Condemns(config, segments, clock, j) <==> Over(config, segments, j));
  }

  /** More than the limit's whole seconds have passed since the segment was
      created, by the clock reading for it. */
  predicate Outlived(maxAge: Duration, segment: SegmentMetadata, now: u64) {
    now > segment.createdAt + maxAge / 1_000_000_000
  }

  lemma OldExactlyWhen(maxAge: Duration, segment: SegmentMetadata, now: u64)
    ensures segment.Age(now) > maxAge <==> now > segment.createdAt + maxAge / 1_000_000_000
  {
  }

  /** What each policy condemns, in the terms of the segments: their creation
      times against the clock, in whole seconds, and the bytes still there. */
  lemma CondemnsExactlyWhen(config: Config, segments: seq<SegmentMetadata>, clock: seq<u64>, i: nat)
    requires i < |segments| == |clock|
    ensures Condemns(config, segments, clock, i) <==>
              && |segments| - i > config.minSegments
              && match config.policy
                 case Time(maxAge) => clock[i] > segments[i].createdAt + maxAge / 1_000_000_000
                 case Size(maxSize) => Total(segments[i..]) > maxSize
                 case Both(ageLimit, sizeLimit) =>
                   clock[i] > segments[i].createdAt + ageLimit / 1_000_000_000 || Total(segments[i..]) > sizeLimit
                 case Unlimited => false
  {
    match config.policy
    case Time(maxAge) => OldExactlyWhen(maxAge, segments[i], clock[i]);
    case Both(ageLimit, _) => OldExactlyWhen(ageLimit, segments[i], clock[i]);
    case _ =>
  }

  /** Under a pure age limit the cut ends at the first segment that has not
      outlived it, or where only the floor is left. */
  lemma TimeCutExactlyWhen(config: Config, segments: seq<SegmentMetadata>, clock: seq<u64>, n: nat)
    requires |segments| == |clock| && n <= |segments| && config.policy.Time?
    ensures Cut(config, segments, clock, n) <==>
              && (forall j :: 0 <= j < n ==> Outlived(config.policy.maxAge, segments[j], clock[j]))
              && (n > 0 ==> |segments| - n >= config.minSegments)
              && (n < |segments| ==>
                    !Outlived(config.policy.maxAge, segments[n], clock[n]) || |segments| - n <= config.minSegments)
  {
    forall j | 0 <= j < |segments|
      ensures Condemns(config, segments, clock, j) <==>
              Outlived(config.policy.maxAge, segments[j], clock[j]) && |segments| - j > config.minSegments
    {
      CondemnsExactlyWhen(config, segments, clock, j);
    }
    if Cut(config, segments, clock, n) && n > 0 {
      assert Condemns(config, segments, clock, n - 1);
    }
  }

  /** Under any policy with a size limit what remains fits it or is down to the
      floor; and it would not have fitted with one segment more, unless that
      one was too old. */
  lemma RemainderFits(config: Config, segments: seq<SegmentMetadata>, clock: seq<u64>, n: nat)
    requires |segments| == |clock| && Cut(config, segments, clock, n)
    ensures !config.TooBig(Total(segments[n..])) || |segments| - n <= config.minSegments
    ensures n > 0 ==> config.TooBig(Total(segments[n - 1..])) || config.TooOld(segments[n - 1].Age(clock[n - 1]))
  {
    if n > 0 {
      assert Condemns(config, segments, clock, n - 1);
    }
  }

  /** When segments come oldest first, no segment that stays is over the age
      limit at the moment the sweep stopped, unless only the floor is left. */
  lemma RemainderIsYoung(config: Config, segments: seq<SegmentMetadata>, clock: seq<u64>, n: nat, i: nat)
    requires |segments| == |clock| && Cut(config, segments, clock, n)
    requires forall j, k :: 0 <= j <= k < |segments| ==> segments[j].createdAt <= segments[k].createdAt
    requires n <= i < |segments| && |segments| - n > config.minSegments
    ensures !config.TooOld(segments[i].Age(clock[n]))
  {
    assert !Condemns(config, segments, clock, n);
    assert segments[i].Age(clock[n]) <= segments[n].Age(clock[n]);
  }

  /** Sweeping what remains once more, by the same clock, deletes nothing. */
  lemma SecondSweepIsIdle(config: Config, segments: seq<SegmentMetadata>, clock: seq<u64>, n: nat)
    requires |segments| == |clock| && Cut(config, segments, clock, n)
    ensures Cut(config, segments[n..], clock[n..], 0)
  {
    if n < |segments| {
      assert segments[n..][0] == segments[n] && segments[n..][0..] == segments[n..];
      assert !Condemns(config, segments, clock, n);
    }
  }

  /** strict gives up whatever lax gives up. */
  ghost predicate Stricter(strict: Config, lax: Config) {
    forall age, total, count :: lax.ShouldDelete(age, total, count) ==> strict.ShouldDelete(age, total, count)
  }

  lemma {:induction false} StricterDeletesMore(strict: Config, lax: Config, segments: seq<SegmentMetadata>, clock: seq<u64>)
    requires |segments| == |clock| && Stricter(strict, lax)
    ensures DeleteCount(lax, segments, clock) <= DeleteCount(strict, segments, clock)
  {
    if DeleteCount(lax, segments, clock) > 0 {
      StricterDeletesMore(strict, lax, segments[1..], clock[1..]);
    }
  }

  /** Age and size limits together delete at least what either deletes alone. */
  lemma BothCoversEach(age: Duration, size: u64, floor: nat, segments: seq<SegmentMetadata>, clock: seq<u64>)
    requires |segments| == |clock|
    ensures var both := DeleteCount(Config(Both(age, size), floor), segments, clock);
            && both >= DeleteCount(Config(Time(age), floor), segments, clock)
            && both >= DeleteCount(Config(Size(size), floor), segments, clock)
  {
    StricterDeletesMore(Config(Both(age, size), floor), Config(Time(age), floor), segments, clock);
    StricterDeletesMore(Config(Both(age, size), floor), Config(Size(size), floor), segments, clock);
  }
}
