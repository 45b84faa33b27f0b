/** A partition: storage/src/partition.rs. The segments, their sparse indexes
    and rotation together behave like one flat sequence of records. */
module Partition {
  import opened Bytes
  import opened DiskRecord
  import opened RecordFormat
  import opened LogImage
  import opened Segment
  import OI = OffsetIndex

  /** A fetched record with its place: protocol::Record. */
  datatype Fetched = Fetched(topic: string, partition: u32, offset: u64, message: Message)

  /** The flat log: record i has offset i. */
  ghost predicate FlatLog(log: seq<Record>) {
    Numbered(0, log)
  }

  function Deliver(topic: string, partition: u32, rs: seq<Record>): seq<Fetched> {
    if |rs| == 0 then []
    else
      var last := rs[|rs| - 1];
      Deliver(topic, partition, rs[..|rs| - 1]) + [Fetched(topic, partition, last.offset, last.ToMessage())]
  }

  lemma {:induction false} DeliverConcat(topic: string, partition: u32, a: seq<Record>, b: seq<Record>)
    ensures Deliver(topic, partition, a + b) == Deliver(topic, partition, a) + Deliver(topic, partition, b)
  {
    if |b| == 0 {
      assert a + b == a;
    } else {
      assert (a + b)[..|a + b| - 1] == a + b[..|b| - 1];
      DeliverConcat(topic, partition, a, b[..|b| - 1]);
    }
  }

  /** Record by record, delivery keeps the offset and the message. */
  lemma {:induction false} DeliverAt(topic: string, partition: u32, rs: seq<Record>, i: nat)
    requires i < |rs|
    ensures |Deliver(topic, partition, rs)| == |rs|
    ensures Deliver(topic, partition, rs)[i] == Fetched(topic, partition, rs[i].offset, rs[i].ToMessage())
  {
    if |rs| > 1 {
      DeliverAt(topic, partition, rs[..|rs| - 1], if i < |rs| - 1 then i else 0);
    }
  }

  /** What a reader gets for a stretch of the flat log, field by field. */
  lemma DeliverFields(topic: string, partition: u32, log: seq<Record>, offset: nat, n: nat)
    requires FlatLog(log)
    ensures var got := Deliver(topic, partition, Slice(log, offset, n));
            && |got| == (if offset >= |log| then 0 else if |log| - offset <= n then |log| - offset else n)
            && forall i :: 0 <= i < |got| ==>
                 && got[i].topic == topic && got[i].partition == partition && got[i].offset == offset + i
                 && got[i].message.key == log[offset + i].key
                 && got[i].message.value == log[offset + i].value
                 && got[i].message.timestamp == log[offset + i].timestamp
  {
    var rs := Slice(log, offset, n);
    var got := Deliver(topic, partition, rs);
    if rs != [] {
      DeliverAt(topic, partition, rs, 0);
    }
    forall i | 0 <= i < |got|
      ensures got[i] == Fetched(topic, partition, rs[i].offset, rs[i].ToMessage()) && rs[i] == log[offset + i]
    {
      DeliverAt(topic, partition, rs, i);
    }
  }

  /** The files of one segment. */
  datatype Files = Files(log: seq<byte>, index: seq<byte>)

  /** Segment i starts at bases[i] and ends where the next one starts. */
  function EndOf(bases: seq<nat>, i: nat, total: nat): nat
    requires i < |bases|
  {
    if i + 1 < |bases| then bases[i + 1] else total
  }

  /** Bases start at 0, increase strictly, and stay within the log. */
  ghost predicate Bases(bases: seq<nat>, total: nat) {
    && |bases| > 0 && bases[0] == 0
    && (forall i, j :: 0 <= i < j < |bases| ==> bases[i] < bases[j])
    && bases[|bases| - 1] <= total
  }

  lemma SliceOfSlice<T>(s: seq<T>, lo: nat, hi: nat, from: nat, n: nat)
    requires lo <= hi <= |s| && lo <= from
    ensures Slice(s[lo..hi], from - lo, n) == if from >= hi then [] else s[from..if from + n <= hi then from + n else hi]
  {
    if from < hi {
      var end := if from + n <= hi then from + n else hi;
      var a, b := s[lo..hi][from - lo..end - lo], s[from..end];
      assert forall j :: 0 <= j < |b| ==> a[j] == b[j];
    }
  }

  lemma SliceGrows(log: seq<Record>, offset: nat, current: nat, more: seq<Record>)
    requires offset <= current && (current > offset ==> current <= |log|)
    requires more != [] && current + |more| <= |log| && more == log[current..current + |more|]
    ensures Slice(log, offset, current - offset) + more == Slice(log, offset, current + |more| - offset)
  {
  }

  /** Part i of the log is what segment i holds. */
  ghost predicate PartAt(log: seq<Record>, bases: seq<nat>, part: seq<Record>, i: nat)
    requires i < |bases|
  {
    bases[i] <= EndOf(bases, i, |log|) <= |log| && part == log[bases[i]..EndOf(bases, i, |log|)]
  }

  ghost predicate Layout(log: seq<Record>, bases: seq<nat>, parts: seq<seq<Record>>) {
    && Bases(bases, |log|) && |parts| == |bases|
    && forall i :: 0 <= i < |bases| ==> PartAt(log, bases, parts[i], i)
  }

  /** A new segment at the end of the log changes no other segment's part. */
  lemma LayoutRotated(log: seq<Record>, bases: seq<nat>, parts: seq<seq<Record>>)
    requires Layout(log, bases, parts) && bases[|bases| - 1] < |log|
    ensures Layout(log, bases + [|log|], parts + [[]])
  {
    var bs, ps := bases + [|log|], parts + [[]];
    forall i | 0 <= i < |bs|
      ensures PartAt(log, bs, ps[i], i)
    {
      if i < |bases| {
        assert PartAt(log, bases, parts[i], i);
        assert EndOf(bs, i, |log|) == EndOf(bases, i, |log|);
      }
    }
  }

  /** Records added to the log go to the last segment. */
  lemma LayoutGrown(log: seq<Record>, bases: seq<nat>, parts: seq<seq<Record>>, more: seq<Record>)
    requires Layout(log, bases, parts)
    ensures Layout(log + more, bases, parts[|bases| - 1 := parts[|bases| - 1] + more])
  {
    var last := |bases| - 1;
    var parts' := parts[last := parts[last] + more];
    forall i | 0 <= i < |bases|
      ensures PartAt(log + more, bases, parts'[i], i)
    {
      assert PartAt(log, bases, parts[i], i);
    }
  }

  lemma FlatGrown(log: seq<Record>, more: seq<Record>)
    requires FlatLog(log) && Numbered(|log|, more)
    ensures FlatLog(log + more)
  {
  }

  /** From record `from` on the log is these messages, field by field. */
  ghost predicate Landed(log: seq<Record>, from: nat, messages: seq<Message>, c: Compression) {
    && |log| == from + |messages|
    && forall i :: 0 <= i < |messages| ==>
         && log[from + i].offset == from + i && log[from + i].compression == c
         && log[from + i].key == messages[i].key && log[from + i].value == messages[i].value
         && log[from + i].timestamp == messages[i].timestamp
  }

  lemma StampedLands(log: seq<Record>, messages: seq<Message>, c: Compression)
    requires |log| + |messages| < TWO_64
    ensures Landed(log + Stamped(|log|, messages, c), |log|, messages, c)
  {
    var more := Stamped(|log|, messages, c);
    assert forall i :: 0 <= i < |messages| ==> (log + more)[|log| + i] == more[i] == Stamp(|log| + i, messages[i], c);
  }

  /** Segment i is where reading at `current` goes on. */
  ghost predicate Standing(bases: seq<nat>, total: nat, i: nat, current: nat) {
    if i < |bases| then bases[i] <= current && (i + 1 < |bases| ==> current < bases[i + 1])
    else current >= total
  }

  /** What a segment gives to a fetch that stands at it: the flat log from
      `current` on, up to n records or the segment's end. */
  ghost predicate Contributes(log: seq<Record>, bases: seq<nat>, i: nat, current: nat, n: nat, rs: seq<Record>) {
    && |rs| <= n
    && (rs == [] ==> n == 0 || current >= |log|)
    && (rs != [] ==>
          && current + |rs| <= |log|
          && rs == log[current..current + |rs|]
          && rs[|rs| - 1].offset + 1 == current + |rs|
          && (|rs| < n ==> Standing(bases, |log|, i + 1, current + |rs|)))
  }

  /** A turn of fetch's loop that gets from `current` to `next`. */
  ghost predicate Turns(log: seq<Record>, bases: seq<nat>, i: nat, current: nat, n: nat, next: nat) {
    && current <= next <= current + n && (next > current ==> next <= |log|)
    && (next == current ==> current >= |log|)
    && (next > current && next < current + n ==> Standing(bases, |log|, i + 1, next))
  }

  lemma PartContributes(log: seq<Record>, bases: seq<nat>, parts: seq<seq<Record>>, i: nat, current: nat, n: nat)
    requires FlatLog(log) && Layout(log, bases, parts) && i < |bases| && Standing(bases, |log|, i, current)
    ensures current >= bases[i] && Contributes(log, bases, i, current, n, Slice(parts[i], current - bases[i], n))
  {
    var lo, hi := bases[i], EndOf(bases, i, |log|);
    assert PartAt(log, bases, parts[i], i);
    SliceOfSlice(log, lo, hi, current, n);
    if current < hi && n > 0 {
      var end := if current + n <= hi then current + n else hi;
      assert log[current..end][end - current - 1] == log[end - 1];
    }
  }

  /** So a turn that reads them gets on by as many, or stands at the log's end. */
  lemma PartTurns(log: seq<Record>, bases: seq<nat>, parts: seq<seq<Record>>, i: nat, current: nat, n: nat, rs: seq<Record>)
    requires FlatLog(log) && Layout(log, bases, parts) && i < |bases| && Standing(bases, |log|, i, current) && n > 0
    requires bases[i] <= current && rs == Slice(parts[i], current - bases[i], n)
    ensures Turns(log, bases, i, current, n, current + |rs|)
    ensures rs != [] ==> current + |rs| <= |log| && rs == log[current..current + |rs|]
    ensures rs != [] ==> rs[|rs| - 1].offset + 1 == current + |rs|
  {
    PartContributes(log, bases, parts, i, current, n);
  }

  /** The records a reader at `offset` has once it got to `current`. */
  ghost function Between(log: seq<Record>, offset: nat, current: nat): seq<Record>
    requires offset <= current
  {
    Slice(log, offset, current - offset)
  }

  lemma GatheredAll(log: seq<Record>, offset: nat, current: nat, n: nat)
    requires offset <= current <= offset + n && (current > offset ==> current <= |log|)
    requires current == offset + n || current >= |log|
    ensures Between(log, offset, current) == Slice(log, offset, n)
  {
  }

  /** Fetch's loop before segment i, with `remaining` records still to get. */
  ghost predicate Fetching(log: seq<Record>, bases: seq<nat>, offset: nat, n: nat, i: nat, current: nat, remaining: nat) {
    && offset <= current && remaining + (current - offset) == n
    && (current > offset ==> current <= |log|)
    && (remaining > 0 ==> Standing(bases, |log|, i, current))
  }

  lemma FetchingStep(log: seq<Record>, bases: seq<nat>, offset: nat, n: nat, i: nat, current: nat, remaining: nat, next: nat)
    requires Fetching(log, bases, offset, n, i, current, remaining)
    requires current < next && Turns(log, bases, i, current, remaining, next)
    ensures Fetching(log, bases, offset, n, i + 1, next, remaining - (next - current))
  {
  }

  // ------------------------------------------------------ files and reopening

  /** A segment's two files hold these records, then this torn tail. */
  ghost predicate FilesHold(f: Format, files: Files, base: nat, rs: seq<Record>, tail: seq<byte>) {
    && files.log == f.image(rs) + tail && f.Torn(tail)
    && AllStorable(f, rs) && Numbered(base, rs)
    && |files.log| < TWO_64 && ScannedNext(base, |rs|, files.log == []) < TWO_64
    && IndexSound(f, OI.Entries(files.index, |files.index| / OI.ENTRY_SIZE), base, rs)
  }

  /** A partition directory, keyed by base offset, holds this log. */
  ghost predicate DirectoryHolds(f: Format, dir: map<u64, Files>, log: seq<Record>, bases: seq<nat>,
                                 parts: seq<seq<Record>>, tails: seq<seq<byte>>) {
    && FlatLog(log) && Layout(log, bases, parts) && |tails| == |bases|
    && (forall b: nat :: b in dir.Keys <==> b in bases)
    && (forall i {:trigger FilesHold(f, dir[bases[i]], bases[i], parts[i], tails[i])} :: 0 <= i < |bases| ==>
          FilesHold(f, dir[bases[i]], bases[i], parts[i], tails[i]))
  }

  ghost predicate Increasing(s: seq<nat>) {
    forall i, j :: 0 <= i < j < |s| ==> s[i] < s[j]
  }

  /** Sorting leaves no choice: there is one increasing listing of a set. */
  lemma {:induction false} IncreasingUnique(a: seq<nat>, b: seq<nat>)
    requires Increasing(a) && Increasing(b) && (forall x :: x in a <==> x in b)
    ensures a == b
  {
    if |a| > 0 {
      assert a[0] in b;
    }
    if |b| > 0 {
      assert b[0] in a;
      assert a[0] in b;
      assert a[0] == b[0];
      forall x
        ensures x in a[1..] <==> x in b[1..]
      {
        assert x in a <==> x in b;
      }
      IncreasingUnique(a[1..], b[1..]);
    }
  }

  /** sort_unstable on the base offsets read_dir listed in any order. */
  method SortedBases(listed: set<u64>) returns (sorted: seq<u64>)
    ensures Increasing(sorted) && forall b: nat :: b in sorted <==> b in listed
  {
    sorted := [];
    var rest := listed;
    while rest != {}
      invariant rest <= listed && Increasing(sorted)
      invariant forall b :: b in listed <==> b in sorted || b in rest
      invariant forall i, b :: 0 <= i < |sorted| && b in rest ==> sorted[i] < b
      decreases |rest|
    {
      var least := Least(rest);
      sorted := sorted + [least];
      rest := rest - {least};
    }
  }

  method Least(s: set<u64>) returns (m: u64)
    requires s != {}
    ensures m in s && forall b :: b in s ==> m <= b
  {
    m :| m in s;
    var rest := s - {m};
    while rest != {}
      invariant rest <= s && m in s
      invariant forall b :: b in s && b !in rest ==> m <= b
      decreases |rest|
    {
      var b :| b in rest;
      if b < m {
        m := b;
      }
      rest := rest - {b};
    }
  }

  // ----------------------------------------------------- facts about segments

  ghost predicate Distinct(segments: seq<LogSegment>) {
    forall i, j :: 0 <= i < j < |segments| ==> segments[i] != segments[j] && segments[i].index != segments[j].index
  }

  /** Segment s holds exactly this part of the flat log. */
  ghost predicate Holds(format: Format, config: Config, s: LogSegment, base: nat, part: seq<Record>)
    reads s, s.index
  {
    && s.format == format && s.config == config
    && s.Valid()
    && s.baseOffset == base && s.records == part
  }

  ghost predicate AllHold(format: Format, config: Config, segments: seq<LogSegment>, bases: seq<nat>, parts: seq<seq<Record>>)
    requires |segments| == |bases| == |parts|
    reads segments, set s | s in segments :: s.index
  {
    forall i {:trigger Holds(format, config, segments[i], bases[i], parts[i])} ::
      0 <= i < |segments| ==> Holds(format, config, segments[i], bases[i], parts[i])
  }

  lemma OneHolds(format: Format, config: Config, segments: seq<LogSegment>, bases: seq<nat>, parts: seq<seq<Record>>, i: nat)
    requires |segments| == |bases| == |parts| && i < |segments|
    requires AllHold(format, config, segments, bases, parts)
    ensures Holds(format, config, segments[i], bases[i], parts[i])
  {
  }

  lemma HoldsOneMore(format: Format, config: Config, segments: seq<LogSegment>, bases: seq<nat>, parts: seq<seq<Record>>,
                     s: LogSegment, base: nat, part: seq<Record>)
    requires |segments| == |bases| == |parts|
    requires AllHold(format, config, segments, bases, parts) && Holds(format, config, s, base, part)
    ensures AllHold(format, config, segments + [s], bases + [base], parts + [part])
  {
    var ss, bs, ps := segments + [s], bases + [base], parts + [part];
    forall i | 0 <= i < |ss|
      ensures Holds(format, config, ss[i], bs[i], ps[i])
    {
      if i < |segments| {
        OneHolds(format, config, segments, bases, parts, i);
      }
    }
  }

  lemma HoldsAllButLast(format: Format, config: Config, segments: seq<LogSegment>, bases: seq<nat>, parts: seq<seq<Record>>)
    requires |segments| == |bases| == |parts| && |segments| > 0
    requires AllHold(format, config, segments, bases, parts) && Distinct(segments)
    ensures var n := |segments| - 1;
            && Holds(format, config, segments[n], bases[n], parts[n])
            && AllHold(format, config, segments[..n], bases[..n], parts[..n])
            && segments[n] !in segments[..n] && (forall s :: s in segments[..n] ==> s.index != segments[n].index)
  {
    forall i | 0 <= i < |segments|
      ensures Holds(format, config, segments[i], bases[i], parts[i])
    {
      OneHolds(format, config, segments, bases, parts, i);
    }
  }

  ghost predicate JustOpened(s: LogSegment, files: Files, tail: seq<byte>)
    reads s, s.index
  {
    && s.torn == tail && s.recordsSinceIndex == 0
    && s.index.file == files.index && s.index.cursor == 0
    && s.index.contents == OI.Entries(files.index, |files.index| / OI.ENTRY_SIZE)
  }

  method OpenSegment(format: Format, config: Config, base: u64, files: Files, ghost rs: seq<Record>, ghost tail: seq<byte>)
    returns (s: LogSegment)
    requires format.Faithful() && FilesHold(format, files, base, rs, tail)
    ensures fresh(s) && fresh(s.index) && Holds(format, config, s, base, rs) && JustOpened(s, files, tail)
  {
    ImageEmpty(format, rs, tail);
    s := new LogSegment.Open(format, base, config, files.log, files.index, rs, tail);
  }

  method OpenAll(format: Format, config: Config, dir: map<u64, Files>, sorted: seq<u64>,
                 ghost parts: seq<seq<Record>>, ghost tails: seq<seq<byte>>)
    returns (segments: seq<LogSegment>)
    requires format.Faithful() && |sorted| == |parts| == |tails|
    requires forall i :: 0 <= i < |sorted| ==> sorted[i] in dir.Keys
    requires forall i {:trigger FilesHold(format, dir[sorted[i]], sorted[i], parts[i], tails[i])} ::
               0 <= i < |sorted| ==> FilesHold(format, dir[sorted[i]], sorted[i], parts[i], tails[i])
    ensures |segments| == |sorted| && Distinct(segments) && AllHold(format, config, segments, sorted, parts)
    ensures forall i :: 0 <= i < |segments| ==> fresh(segments[i]) && fresh(segments[i].index)
    ensures forall i :: 0 <= i < |segments| ==> JustOpened(segments[i], dir[sorted[i]], tails[i])
  {
    segments := [];
    ghost var bs: seq<nat>, ps: seq<seq<Record>> := [], [];
    for k := 0 to |sorted|
      invariant |segments| == |bs| == |ps| == k
      invariant forall i :: 0 <= i < k ==> bs[i] == sorted[i] && ps[i] == parts[i]
      invariant forall i :: 0 <= i < k ==> fresh(segments[i]) && fresh(segments[i].index)
      invariant Distinct(segments)
      invariant AllHold(format, config, segments, bs, ps)
      invariant forall i :: 0 <= i < k ==> JustOpened(segments[i], dir[sorted[i]], tails[i])
    {
      assert FilesHold(format, dir[sorted[k]], sorted[k], parts[k], tails[k]);
      var segment := OpenSegment(format, config, sorted[k], dir[sorted[k]], parts[k], tails[k]);
      HoldsOneMore(format, config, segments, bs, ps, segment, sorted[k], parts[k]);
      segments, bs, ps := segments + [segment], bs + [sorted[k] as nat], ps + [parts[k]];
    }
    assert bs == sorted && ps == parts;
  }

  /** Why max_size must be positive: with 0, and only with 0, an empty segment
      is full, and rotation would create the next one on the same files. */
  lemma EmptySegmentIsFullOnlyAtZero(s: LogSegment)
    requires s.Valid() && s.records == [] && s.torn == []
    ensures s.ShouldRotate() <==> s.config.maxSize == 0
    ensures s.nextOffset == s.baseOffset
  {
    ImageNil(s.format);
  }

  class Partition {
    const format: Format
    const topic: string
    const partitionId: u32
    const config: Config
    var segments: seq<LogSegment>

    /** Every record ever appended, across all segments. */
    ghost var log: seq<Record>

    /** The base offset of each segment. */
    ghost var bases: seq<nat>

    /** The part of the log in each segment. */
    ghost var parts: seq<seq<Record>>

    ghost predicate Valid()
      reads this, segments, set s | s in segments :: s.index
    {
      && format.Faithful() && config.maxSize > 0
      && FlatLog(log) && Layout(log, bases, parts)
      && |segments| == |bases|
      && Distinct(segments)
      && AllHold(format, config, segments, bases, parts)
    }

    ghost function Last(): LogSegment
      reads this
      requires |segments| > 0
    {
      segments[|segments| - 1]
    }

    /** Partition::with_config in an empty directory. */
    constructor Create(format: Format, topic: string, partitionId: u32, config: Config)
      requires format.Faithful() && config.maxSize > 0
      ensures Valid() && Ready() && log == []
      ensures fresh(Last()) && fresh(Last().index)
      ensures this.format == format && this.topic == topic && this.partitionId == partitionId && this.config == config
    {
      this.format, this.topic, this.partitionId, this.config := format, topic, partitionId, config;
      log := [];
      var first := new LogSegment.Create(format, 0, config);
      segments, bases, parts := [first], [0], [[]];
      new;
      OneHolds(format, config, segments, bases, parts, 0);
    }

    /** Any batch may follow: the last segment was created, not reopened. */
    ghost predicate Ready()
      reads this, segments, set s | s in segments :: s.index
    {
      && |segments| > 0
      && Last().index.Consistent() && Last().Ready()
    }

    /** The last segment whose base is not above the offset. */
    method FindSegmentIndex(offset: nat) returns (res: Result<nat, StorageError>)
      requires Valid()
      ensures res.Ok? && res.value < |segments| && Standing(bases, |log|, res.value, offset)
    {
      var left, right := 0, |segments|;
      while left < right
        invariant left <= right <= |segments|
        invariant left > 0 ==> bases[left - 1] <= offset
        invariant right < |segments| ==> offset < bases[right]
      {
        var mid := (left + right) / 2;
        OneHolds(format, config, segments, bases, parts, mid);
        if segments[mid].baseOffset <= offset {
          left := mid + 1;
        } else {
          right := mid;
        }
      }
      if left > 0 {
        return Ok(left - 1);
      } else {
        return Err(InvalidOffset(offset));
      }
    }

    /** One segment's contribution to a fetch. */
    method ReadSegment(i: nat, current: nat, n: u32) returns (res: Result<seq<Record>, StorageError>)
      requires Valid() && i < |segments| && Standing(bases, |log|, i, current)
      ensures bases[i] <= current && res == Ok(Slice(parts[i], current - bases[i], n))
    {
      OneHolds(format, config, segments, bases, parts, i);
      res := segments[i].ReadBatch(current, n);
    }

    /** Converts a batch and pushes it, one record at a time. */
    method Extend(all: seq<Fetched>, batch: seq<Record>, ghost flat: seq<Record>, ghost offset: nat, ghost current: nat)
      returns (out: seq<Fetched>)
      requires offset <= current && (current > offset ==> current <= |flat|)
      requires batch != [] && current + |batch| <= |flat| && batch == flat[current..current + |batch|]
      requires all == Deliver(topic, partitionId, Between(flat, offset, current))
      ensures out == Deliver(topic, partitionId, Between(flat, offset, current + |batch|))
    {
      out := all;
      for i := 0 to |batch|
        invariant out == all + Deliver(topic, partitionId, batch[..i])
      {
        assert batch[..i + 1][..i] == batch[..i];
        out := out + [Fetched(topic, partitionId, batch[i].offset, batch[i].ToMessage())];
      }
      assert batch[..|batch|] == batch;
      SliceGrows(flat, offset, current, batch);
      DeliverConcat(topic, partitionId, Between(flat, offset, current), batch);
    }

    /** The central refinement: for every offset and count, a fetch over the
        segment files, their indexes and the rotation boundaries returns exactly
        that slice of the flat log: as many records as asked for, or all there
        are from the offset on, each with its own offset, key, value and time. */
    method Fetch(offset: nat, maxMessages: u32) returns (res: Result<seq<Fetched>, StorageError>)
      requires Valid()
      ensures res == Ok(Deliver(topic, partitionId, Slice(log, offset, maxMessages)))
      ensures |res.value| == if offset >= |log| then 0
                             else if |log| - offset <= maxMessages then |log| - offset else maxMessages
      ensures forall i :: 0 <= i < |res.value| ==>
                && res.value[i].topic == topic && res.value[i].partition == partitionId
                && res.value[i].offset == offset + i
                && res.value[i].message.key == log[offset + i].key
                && res.value[i].message.value == log[offset + i].value
                && res.value[i].message.timestamp == log[offset + i].timestamp
    {
      DeliverFields(topic, partitionId, log, offset, maxMessages);
      var found := FindSegmentIndex(offset);
      var all := FetchFrom(found.value, offset, maxMessages);
      return all;
    }

    /** One turn of fetch's loop. */
    method FetchSegment(i: nat, offset: nat, current: nat, remaining: u32, all: seq<Fetched>)
      returns (res: Result<(seq<Fetched>, nat), StorageError>)
      requires Valid() && i < |segments| && Standing(bases, |log|, i, current) && remaining > 0
      requires offset <= current && (current > offset ==> current <= |log|)
      requires all == Deliver(topic, partitionId, Between(log, offset, current))
      ensures res.Ok?
      ensures var (more, next) := res.value;
              Turns(log, bases, i, current, remaining, next) && more == Deliver(topic, partitionId, Between(log, offset, next))
    {
      var batch := ReadSegment(i, current, remaining);
      match batch
      case Err(e) =>
        return Err(e);
      case Ok(records) =>
        PartTurns(log, bases, parts, i, current, remaining, records);
        var more, next := Advance(all, records, log, offset, current);
        return Ok((more, next));
    }

    /** What the records of one segment add, and where reading goes on. */
    method Advance(all: seq<Fetched>, records: seq<Record>, ghost flat: seq<Record>, ghost offset: nat, current: nat)
      returns (more: seq<Fetched>, next: nat)
      requires offset <= current && (current > offset ==> current <= |flat|)
      requires all == Deliver(topic, partitionId, Between(flat, offset, current))
      requires records != [] ==> current + |records| <= |flat| && records == flat[current..current + |records|]
      requires records != [] ==> records[|records| - 1].offset + 1 == current + |records|
      ensures next == current + |records| && more == Deliver(topic, partitionId, Between(flat, offset, next))
    {
      if records == [] {
        return all, current;
      }
      more := Extend(all, records, flat, offset, current);
      next := records[|records| - 1].offset + 1;
    }

    /** Fetch's loop over the segments from the one that holds the offset. */
    method FetchFrom(first: nat, offset: nat, maxMessages: u32) returns (res: Result<seq<Fetched>, StorageError>)
      requires Valid() && first < |segments| && Standing(bases, |log|, first, offset)
      ensures res == Ok(Deliver(topic, partitionId, Slice(log, offset, maxMessages)))
    {
      var all: seq<Fetched> := [];
      var remaining: nat := maxMessages;
      var current: nat := offset;
      var i := first;
      while i < |segments|
        invariant i <= |segments| && Fetching(log, bases, offset, maxMessages, i, current, remaining)
        invariant all == Deliver(topic, partitionId, Between(log, offset, current))
      {
        if remaining == 0 {
          break;
        }
        var batch := FetchSegment(i, offset, current, remaining, all);
        match batch
        case Err(e) =>
          return Err(e);
        case Ok((more, next)) =>
          if next == current {
            break;
          }
          FetchingStep(log, bases, offset, maxMessages, i, current, remaining, next);
          remaining := remaining - (next - current);
          all, current := more, next;
          i := i + 1;
      }
      GatheredAll(log, offset, current, maxMessages);
      return Ok(all);
    }

    /** The length of the flat log, unless the last segment was reopened on
        nothing but a torn record: then one offset is skipped. */
    method NextOffset() returns (next: nat)
      requires Valid()
      ensures next == |log| + if Last().Gapless() then 0 else 1
    {
      next := 0;
      if |segments| > 0 {
        LastPart();
        next := segments[|segments| - 1].nextOffset;
      }
    }

    /** The next batch of n messages goes to a segment that can take it: one
        about to be created, or the last one. See LogSegment.Appendable. */
    ghost predicate CanTake(n: nat)
      requires |segments| > 0
      reads this, segments, set s | s in segments :: s.index
    {
      Last().Gapless() && (Last().ShouldRotate() || Last().Appendable(n))
    }

    /** A full segment without a gap holds a record, so a new empty one at the
        end of the log fits behind it. */
    lemma RotatedHolds(s: LogSegment)
      requires Valid() && Last().ShouldRotate() && Last().Gapless()
      requires Holds(format, config, s, |log|, [])
      ensures AllHold(format, config, segments + [s], bases + [|log|], parts + [[]])
      ensures Layout(log, bases + [|log|], parts + [[]])
    {
      LastPart();
      var active := Last();
      assert active.records != [] by {
        if active.records == [] {
          EmptySegmentIsFullOnlyAtZero(active);
        }
      }
      LayoutRotated(log, bases, parts);
      HoldsOneMore(format, config, segments, bases, parts, s, |log|, []);
    }

    /** A segment at its size limit holds at least one record, so the new one
        starts above it, at the end of the flat log if no offset was skipped. */
    method Rotate()
      requires Valid() && Last().ShouldRotate()
      modifies this`segments, this`bases, this`parts
      ensures |segments| > 0 && fresh(Last()) && fresh(Last().index) && Last().Valid() && segments == old(segments) + [Last()]
      ensures Last().baseOffset == Last().nextOffset == old(Last().nextOffset)
      ensures Last().logFile == [] && Last().size == 0
      ensures Last().format == format && Last().config == config
      ensures old(Last().Gapless()) ==> Valid() && Ready() && bases == old(bases) + [|log|]
    {
      LastPart();
      var active := segments[|segments| - 1];
      var newSegment := new LogSegment.Create(format, active.nextOffset, config);
      if active.Gapless() {
        RotatedHolds(newSegment);
      }
      segments := segments + [newSegment];
      bases := bases + [newSegment.baseOffset];
      parts := parts + [[]];
      if active.Gapless() {
        assert AllHold(format, config, segments, bases, parts) && Layout(log, bases, parts);
      }
    }

    /** Appends to the active segment; `sound` says that it can take the batch.
        The other segments hold what they held. */
    method AppendActive(messages: seq<Message>, ghost sound: bool) returns (res: Result<u64, StorageError>)
      requires |segments| > 0 && Last().Valid() && Last().format == format && Last().config == config
      requires Last().nextOffset + |messages| < TWO_64
      requires Last().size + |format.image(Stamped(Last().nextOffset, messages, config.compression))| < TWO_64
      requires sound ==>
                 && |segments| == |bases| == |parts| && Distinct(segments)
                 && AllHold(format, config, segments, bases, parts) && Last().Appendable(|messages|)
                 && AllStorable(format, Stamped(Last().nextOffset, messages, config.compression))
      modifies Last(), Last().index
      ensures res == if messages == [] then Err(NoMessages) else Ok(old(Last().nextOffset))
      ensures Last().logFile
           == old(Last().logFile) + format.image(old(Stamped(Last().nextOffset, messages, config.compression)))
      ensures sound ==>
                var n := |segments| - 1;
                && AllHold(format, config, segments, bases,
                           parts[n := parts[n] + old(Stamped(Last().nextOffset, messages, config.compression))])
                && Last().index.Consistent() && (Last().index.AtEnd() ==> Last().Ready())
                && Last().index.AtEnd() == old(Last().index.AtEnd())
    {
      var active := segments[|segments| - 1];
      ghost var n := |segments| - 1;
      ghost var stamped := Stamped(active.nextOffset, messages, config.compression);
      if sound {
        HoldsAllButLast(format, config, segments, bases, parts);
      }
      res := active.Append(messages);
      if sound {
        HoldsOneMore(format, config, segments[..n], bases[..n], parts[..n], active, bases[n], parts[n] + stamped);
        assert segments[..n] + [active] == segments && bases[..n] + [bases[n]] == bases;
        assert parts[..n] + [parts[n] + stamped] == parts[n := parts[n] + stamped];
      }
    }

    method AppendToLast(messages: seq<Message>, ghost sound: bool) returns (res: Result<u64, StorageError>)
      requires |segments| > 0 && Last().Valid() && Last().format == format && Last().config == config
      requires Last().nextOffset + |messages| < TWO_64
      requires Last().size + |format.image(Stamped(Last().nextOffset, messages, config.compression))| < TWO_64
      requires sound ==>
                 && Valid() && Last().Appendable(|messages|) && Last().nextOffset == |log|
                 && AllStorable(format, Stamped(|log|, messages, config.compression))
      modifies this`log, this`parts, Last(), Last().index
      ensures res == if messages == [] then Err(NoMessages) else Ok(old(Last().nextOffset))
      ensures Last().logFile
           == old(Last().logFile) + format.image(old(Stamped(Last().nextOffset, messages, config.compression)))
      ensures sound ==>
                && Valid()
                && log == old(log) + old(Stamped(Last().nextOffset, messages, config.compression))
                && (old(Ready()) ==> Ready())
    {
      ghost var stamped := Stamped(Last().nextOffset, messages, config.compression);
      res := AppendActive(messages, sound);
      if sound {
        NoteAppended(stamped);
      }
    }

    /** The ghost part of an append: the records go to the end of the log. */
    ghost method NoteAppended(more: seq<Record>)
      requires format.Faithful() && config.maxSize > 0
      requires FlatLog(log) && Layout(log, bases, parts) && Numbered(|log|, more)
      requires |segments| == |bases| && Distinct(segments)
      requires var n := |segments| - 1; AllHold(format, config, segments, bases, parts[n := parts[n] + more])
      modifies this`log, this`parts
      ensures Valid() && log == old(log) + more
    {
      LayoutGrown(log, bases, parts, more);
      FlatGrown(log, more);
      var n := |segments| - 1;
      log, parts := log + more, parts[n := parts[n] + more];
    }

    /** Appends a batch and returns the next offset as it was. The batch goes to
        a new segment when the last one's file has reached the size limit, and
        then leaves the full one alone; otherwise behind what that file holds.
        When the batch goes to a segment that can take it, it lands at the end
        of the flat log: always so unless the last segment was reopened. */
    method Append(messages: seq<Message>) returns (res: Result<u64, StorageError>)
      requires Valid() && Last().nextOffset + |messages| < TWO_64
      requires (if |Last().logFile| >= config.maxSize then 0 else |Last().logFile|)
               + |format.image(Stamped(Last().nextOffset, messages, config.compression))| < TWO_64
      modifies this`segments, this`bases, this`parts, this`log, Last(), Last().index
      ensures res == if messages == [] then Err(NoMessages) else Ok(old(Last().nextOffset))
      ensures var full := messages != [] && |old(Last().logFile)| >= config.maxSize;
              && |segments| == |old(segments)| + (if full then 1 else 0)
              && Last().logFile == (if full then [] else old(Last().logFile))
                                   + format.image(old(Stamped(Last().nextOffset, messages, config.compression)))
              && (full ==> fresh(Last()) && fresh(Last().index)) && (!full ==> Last() == old(Last()))
              && (full ==> old(Last()).logFile == old(Last().logFile))
      ensures old(segments) <= segments
      ensures messages == []
              || old(CanTake(|messages|) && AllStorable(format, Stamped(Last().nextOffset, messages, config.compression))) ==>
                && Valid() && log == old(log) + old(Stamped(Last().nextOffset, messages, config.compression))
                && (messages != [] ==> old(Last().nextOffset) == |old(log)|)
                && bases == old(bases) + (if |segments| > |old(segments)| then [|old(log)|] else [])
                && (old(Ready()) || |segments| > |old(segments)| ==> Ready())
                && Landed(log, |old(log)|, messages, config.compression)
    {
      LastPart();
      ghost var stamped := Stamped(Last().nextOffset, messages, config.compression);
      ghost var sound := CanTake(|messages|) && AllStorable(format, stamped);
      if Last().Gapless() {
        StampedLands(log, messages, config.compression);
      }
      if messages == [] {
        assert stamped == [] && log + stamped == log;
        ImageNil(format);
        return Err(NoMessages);
      }
      if segments[|segments| - 1].ShouldRotate() {
        Rotate();
      }
      res := AppendToLast(messages, sound);
    }

    constructor Assemble(format: Format, topic: string, partitionId: u32, config: Config, segments: seq<LogSegment>,
                         ghost log: seq<Record>, ghost bases: seq<nat>, ghost parts: seq<seq<Record>>)
      requires format.Faithful() && config.maxSize > 0 && FlatLog(log) && Layout(log, bases, parts)
      requires |segments| == |bases| && Distinct(segments) && AllHold(format, config, segments, bases, parts)
      ensures Valid() && this.log == log && this.bases == bases && this.parts == parts && this.segments == segments
      ensures this.format == format && this.topic == topic && this.partitionId == partitionId && this.config == config
    {
      this.format, this.topic, this.partitionId, this.config := format, topic, partitionId, config;
      this.segments, this.log, this.bases, this.parts := segments, log, bases, parts;
    }

    /** Opens every segment file found, in order of base offset. The ghost
        arguments name what the directory holds. */
    static method Open(format: Format, topic: string, partitionId: u32, config: Config, dir: map<u64, Files>,
                       ghost log: seq<Record>, ghost bases: seq<nat>, ghost parts: seq<seq<Record>>, ghost tails: seq<seq<byte>>)
      returns (res: Result<Partition, StorageError>)
      requires format.Faithful() && config.maxSize > 0
      requires dir == map[] || DirectoryHolds(format, dir, log, bases, parts, tails)
      ensures dir == map[] ==> res == Err(NoSegments)
      ensures dir != map[] ==>
                && res.Ok? && fresh(res.value)
                && res.value.Valid() && res.value.log == log && res.value.bases == bases && res.value.parts == parts
                && res.value.topic == topic && res.value.partitionId == partitionId && res.value.config == config
                && res.value.format == format
                && forall i :: 0 <= i < |bases| ==> JustOpened(res.value.segments[i], dir[bases[i]], tails[i])
    {
      var sorted := SortedBases(dir.Keys);
      if |sorted| == 0 {
        assert dir.Keys == {};
        return Err(NoSegments);
      }
      assert sorted[0] in dir.Keys;
      IncreasingUnique(sorted, bases);
      var segments := OpenAll(format, config, dir, sorted, parts, tails);
      var p := new Partition.Assemble(format, topic, partitionId, config, segments, log, bases, parts);
      return Ok(p);
    }

    /** The torn tail of each segment file. */
    ghost function Tails(): (tails: seq<seq<byte>>)
      reads this, segments
      ensures |tails| == |segments|
      ensures forall i :: 0 <= i < |segments| ==> tails[i] == segments[i].torn
    {
      seq(|segments|, i requires 0 <= i < |segments| reads this, segments => segments[i].torn)
    }

    /** What is on disk: the two files of every segment. */
    method ReadDirectory() returns (dir: map<u64, Files>)
      requires Valid()
      ensures DirectoryHolds(format, dir, log, bases, parts, Tails())
      ensures forall i :: 0 <= i < |bases| ==> dir[bases[i]] == Files(segments[i].logFile, segments[i].index.file)
    {
      dir := map[];
      for k := 0 to |segments|
        invariant forall b: nat :: b in dir.Keys <==> b in bases[..k]
        invariant forall i :: 0 <= i < k ==> segments[i].baseOffset == bases[i]
        invariant forall i {:trigger dir[bases[i]]} :: 0 <= i < k ==>
                    dir[bases[i]] == Files(segments[i].logFile, segments[i].index.file)
      {
        OneHolds(format, config, segments, bases, parts, k);
        var s := segments[k];
        dir := dir[s.baseOffset := Files(s.logFile, s.index.file)];
        assert bases[..k + 1] == bases[..k] + [bases[k]];
      }
      assert bases[..|segments|] == bases;
      DirectoryIsHeld(dir);
    }

    lemma DirectoryIsHeld(dir: map<u64, Files>)
      requires Valid()
      requires forall b: nat :: b in dir.Keys <==> b in bases
      requires forall i {:trigger dir[bases[i]]} :: 0 <= i < |bases| ==>
                 dir[bases[i]] == Files(segments[i].logFile, segments[i].index.file)
      ensures DirectoryHolds(format, dir, log, bases, parts, Tails())
    {
      forall i | 0 <= i < |bases|
        ensures FilesHold(format, dir[bases[i]], bases[i], parts[i], Tails()[i])
      {
        OneHolds(format, config, segments, bases, parts, i);
        SegmentFiles(format, config, segments[i], bases[i], parts[i]);
      }
    }

    lemma LastPart()
      requires Valid()
      ensures Last().baseOffset == bases[|bases| - 1] && Last().records == parts[|bases| - 1]
      ensures Last().Valid() && Last().format == format && Last().config == config
      ensures Last().nextOffset == |log| + if Last().Gapless() then 0 else 1
      ensures Last().torn == [] ==> Last().Gapless()
    {
      OneHolds(format, config, segments, bases, parts, |segments| - 1);
      ImageEmpty(format, Last().records, Last().torn);
      assert PartAt(log, bases, parts[|segments| - 1], |segments| - 1);
    }
  }

  lemma SegmentFiles(format: Format, config: Config, s: LogSegment, base: nat, part: seq<Record>)
    requires format.Faithful() && Holds(format, config, s, base, part)
    ensures FilesHold(format, Files(s.logFile, s.index.file), base, part, s.torn)
  {
    ImageEmpty(format, s.records, s.torn);
    s.index.ContentsAreEntries();
  }
}
