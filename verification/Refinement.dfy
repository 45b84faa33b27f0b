/** The storage engine from the outside: bytes, sparse indexes, rotation and
    fetches across segments against one flat list of messages. */
module Refinement {
  import opened Bytes
  import opened DiskRecord
  import opened RecordFormat
  import opened LogImage
  import opened Segment
  import opened Partition
  import opened Recovery

  function Flat(batches: seq<seq<Message>>): seq<Message> {
    if |batches| == 0 then [] else Flat(batches[..|batches| - 1]) + batches[|batches| - 1]
  }

  lemma FlatSnoc(batches: seq<seq<Message>>, i: nat)
    requires i < |batches|
    ensures Flat(batches[..i + 1]) == Flat(batches[..i]) + batches[i]
  {
    assert batches[..i + 1][..i] == batches[..i];
  }

  lemma {:induction false} FlatGrows(batches: seq<seq<Message>>, i: nat)
    requires i <= |batches|
    ensures Flat(batches[..i]) <= Flat(batches)
    decreases |batches| - i
  {
    if i == |batches| {
      assert batches[..i] == batches;
    } else {
      FlatSnoc(batches, i);
      FlatGrows(batches, i + 1);
    }
  }

  /** Message j of batch i stands behind all earlier batches and j messages. */
  lemma FlatAt(batches: seq<seq<Message>>, i: nat, j: nat)
    requires i < |batches| && j < |batches[i]|
    ensures |Flat(batches[..i])| + j < |Flat(batches)|
    ensures Flat(batches)[|Flat(batches[..i])| + j] == batches[i][j]
  {
    FlatSnoc(batches, i);
    FlatGrows(batches, i + 1);
  }

  // ------------------------------------------------------------- segment sizes

  /** How many messages the first i batches hold. */
  function Count(batches: seq<seq<Message>>, i: nat): nat
    requires i <= |batches|
  {
    |Flat(batches[..i])|
  }

  /** A segment file with the batches from lo up to hi: a segment that was left
      behind has reached the size limit, and none had before its last batch. */
  ghost predicate Fills(f: Format, all: seq<Record>, batches: seq<seq<Message>>, maxSize: nat,
                        lo: nat, hi: nat, leftBehind: bool, file: seq<byte>) {
    && lo <= hi <= |batches| && Count(batches, lo) <= Count(batches, hi) <= |all|
    && file == f.image(all[Count(batches, lo)..Count(batches, hi)])
    && (leftBehind ==> lo < hi && |file| >= maxSize)
    && (lo < hi ==>
          && Count(batches, lo) <= Count(batches, hi - 1) <= |all|
          && |f.image(all[Count(batches, lo)..Count(batches, hi - 1)])| < maxSize)
  }

  function CutAfter(cuts: seq<nat>, k: nat, n: nat): nat {
    if k + 1 < |cuts| then cuts[k + 1] else n
  }

  /** Segment k holds the batches from cuts[k] up to the next segment's. */
  ghost predicate FilledBy(f: Format, all: seq<Record>, batches: seq<seq<Message>>, maxSize: nat,
                           cuts: seq<nat>, files: seq<seq<byte>>, n: nat) {
    && |cuts| == |files| > 0 && cuts[0] == 0 && |all| == |Flat(batches)|
    && forall k :: 0 <= k < |cuts| ==>
         Fills(f, all, batches, maxSize, cuts[k], CutAfter(cuts, k, n), k + 1 < |cuts|, files[k])
  }

  /** A file below the limit takes one more batch. */
  lemma FillsMore(f: Format, all: seq<Record>, batches: seq<seq<Message>>, maxSize: nat, lo: nat, n: nat, file: seq<byte>)
    requires f.Faithful() && n < |batches| && Count(batches, n) <= Count(batches, n + 1) <= |all|
    requires Fills(f, all, batches, maxSize, lo, n, false, file) && |file| < maxSize
    ensures Fills(f, all, batches, maxSize, lo, n + 1, false,
                  file + f.image(all[Count(batches, n)..Count(batches, n + 1)]))
  {
    var a, b, c := Count(batches, lo), Count(batches, n), Count(batches, n + 1);
    ImageConcat(f, all[a..b], all[b..c]);
    assert all[a..b] + all[b..c] == all[a..c];
  }

  /** A file at the limit is left behind, and the next one takes the batch. */
  lemma FillsNext(f: Format, all: seq<Record>, batches: seq<seq<Message>>, maxSize: nat, lo: nat, n: nat, file: seq<byte>)
    requires f.Faithful() && maxSize > 0 && n < |batches| && Count(batches, n) <= Count(batches, n + 1) <= |all|
    requires Fills(f, all, batches, maxSize, lo, n, false, file) && |file| >= maxSize
    ensures Fills(f, all, batches, maxSize, lo, n, true, file)
    ensures Fills(f, all, batches, maxSize, n, n + 1, false, f.image(all[Count(batches, n)..Count(batches, n + 1)]))
  {
    var b := Count(batches, n);
    assert all[b..b] == [];
    ImageNil(f);
  }

  /** The files before the last one keep what they hold. */
  lemma FilledBefore(f: Format, all: seq<Record>, batches: seq<seq<Message>>, maxSize: nat,
                     cuts: seq<nat>, files: seq<seq<byte>>, n: nat, k: nat)
    requires FilledBy(f, all, batches, maxSize, cuts, files, n) && k + 1 < |cuts|
    ensures Fills(f, all, batches, maxSize, cuts[k], cuts[k + 1], true, files[k])
  {
    assert Fills(f, all, batches, maxSize, cuts[k], CutAfter(cuts, k, n), k + 1 < |cuts|, files[k]);
  }

  lemma FilledLast(f: Format, all: seq<Record>, batches: seq<seq<Message>>, maxSize: nat,
                   cuts: seq<nat>, files: seq<seq<byte>>, n: nat)
    requires FilledBy(f, all, batches, maxSize, cuts, files, n)
    ensures Fills(f, all, batches, maxSize, cuts[|cuts| - 1], n, false, files[|cuts| - 1])
  {
    var z := |cuts| - 1;
    assert Fills(f, all, batches, maxSize, cuts[z], CutAfter(cuts, z, n), z + 1 < |cuts|, files[z]);
  }

  /** One more batch, in the last file. */
  lemma FilledMore(f: Format, all: seq<Record>, batches: seq<seq<Message>>, maxSize: nat,
                   cuts: seq<nat>, files: seq<seq<byte>>, n: nat, file: seq<byte>)
    requires FilledBy(f, all, batches, maxSize, cuts, files, n)
    requires Fills(f, all, batches, maxSize, cuts[|cuts| - 1], n + 1, false, file)
    ensures FilledBy(f, all, batches, maxSize, cuts, files[|files| - 1 := file], n + 1)
  {
    var files' := files[|files| - 1 := file];
    forall k | 0 <= k < |cuts|
      ensures Fills(f, all, batches, maxSize, cuts[k], CutAfter(cuts, k, n + 1), k + 1 < |cuts|, files'[k])
    {
      if k + 1 < |cuts| {
        FilledBefore(f, all, batches, maxSize, cuts, files, n, k);
      }
    }
  }

  /** Or in a new one, when the last one is left behind. */
  lemma FilledAnew(f: Format, all: seq<Record>, batches: seq<seq<Message>>, maxSize: nat,
                   cuts: seq<nat>, files: seq<seq<byte>>, n: nat, file: seq<byte>)
    requires FilledBy(f, all, batches, maxSize, cuts, files, n)
    requires Fills(f, all, batches, maxSize, cuts[|cuts| - 1], n, true, files[|files| - 1])
    requires Fills(f, all, batches, maxSize, n, n + 1, false, file)
    ensures FilledBy(f, all, batches, maxSize, cuts + [n], files + [file], n + 1)
  {
    var cuts', files' := cuts + [n], files + [file];
    forall k | 0 <= k < |cuts'|
      ensures Fills(f, all, batches, maxSize, cuts'[k], CutAfter(cuts', k, n + 1), k + 1 < |cuts'|, files'[k])
    {
      if k + 1 < |cuts| {
        FilledBefore(f, all, batches, maxSize, cuts, files, n, k);
      }
    }
  }

  /** One more batch, in a new file exactly when the last one is full. */
  lemma FilledOneMore(f: Format, all: seq<Record>, batches: seq<seq<Message>>, maxSize: nat,
                      cuts: seq<nat>, files: seq<seq<byte>>, n: nat, cuts': seq<nat>, files': seq<seq<byte>>)
    requires f.Faithful() && maxSize > 0 && n < |batches|
    requires FilledBy(f, all, batches, maxSize, cuts, files, n)
    requires Count(batches, n) <= Count(batches, n + 1) <= |all|
    requires var z, more := |files| - 1, f.image(all[Count(batches, n)..Count(batches, n + 1)]);
             if |files[z]| >= maxSize then cuts' == cuts + [n] && files' == files + [more]
             else cuts' == cuts && files' == files[z := files[z] + more]
    ensures FilledBy(f, all, batches, maxSize, cuts', files', n + 1)
  {
    var z, more := |files| - 1, f.image(all[Count(batches, n)..Count(batches, n + 1)]);
    FilledLast(f, all, batches, maxSize, cuts, files, n);
    if |files[z]| >= maxSize {
      FillsNext(f, all, batches, maxSize, cuts[z], n, files[z]);
      FilledAnew(f, all, batches, maxSize, cuts, files, n, more);
    } else {
      FillsMore(f, all, batches, maxSize, cuts[z], n, files[z]);
      FilledMore(f, all, batches, maxSize, cuts, files, n, files[z] + more);
    }
  }

  /** A batch lands behind what is there, and the records of both fit as soon
      as all messages fit. */
  lemma NextBatch(f: Format, c: Compression, all: seq<Message>, before: seq<Message>, batch: seq<Message>)
    requires f.Faithful() && |all| < TWO_64 && before + batch <= all && AllStorable(f, Stamped(0, all, c))
    ensures Stamped(0, before + batch, c) == Stamped(0, before, c) + Stamped(|before|, batch, c)
    ensures AllStorable(f, Stamped(|before|, batch, c))
    ensures |f.image(Stamped(0, before, c))| + |f.image(Stamped(|before|, batch, c))| <= |f.image(Stamped(0, all, c))|
    ensures Stamped(|before|, batch, c) == Stamped(0, all, c)[|before|..|before| + |batch|]
  {
    var a, b, whole := Stamped(0, before, c), Stamped(|before|, batch, c), Stamped(0, all, c);
    assert Stamped(0, before + batch, c) == a + b;
    assert whole[..|a + b|] == a + b;
    forall i | 0 <= i < |b|
      ensures f.storable(b[i])
    {
      assert whole[|a| + i] == b[i];
    }
    ImageConcat(f, a, b);
    ImageFrom(f, whole, [], |a + b|);
  }

  /** The active segment's file is a part of the flat log's bytes. */
  lemma ActiveIsPart(p: Partition)
    requires p.Valid() && p.Ready()
    ensures p.Last().size <= |p.format.image(p.log)| && p.Last().nextOffset == |p.log|
    ensures forall n: nat :: p.CanTake(n)
  {
    p.LastPart();
    var z := |p.bases| - 1;
    OneHolds(p.format, p.config, p.segments, p.bases, p.parts, z);
    assert PartAt(p.log, p.bases, p.parts[z], z);
    assert p.parts[z] == p.log[p.bases[z]..];
    ImageFrom(p.format, p.log, [], p.bases[z]);
    assert p.Last().logFile == p.format.image(p.Last().records);
  }

  /** The log files of the segments, in order. */
  ghost predicate LogFiles(segments: seq<LogSegment>, files: seq<seq<byte>>)
    reads segments
  {
    |files| == |segments| && forall i :: 0 <= i < |files| ==> files[i] == segments[i].logFile
  }

  /** What holds of the partition after n of the batches. */
  ghost predicate Filled(p: Partition, batches: seq<seq<Message>>, cuts: seq<nat>, files: seq<seq<byte>>, n: nat)
    requires n <= |batches| && |Flat(batches)| < TWO_64
    reads p, p.segments, set s | s in p.segments :: s.index
  {
    && p.Valid() && p.Ready()
    && Count(batches, n) < TWO_64 && p.log == Stamped(0, Flat(batches[..n]), p.config.compression)
    && LogFiles(p.segments, files)
    && FilledBy(p.format, Stamped(0, Flat(batches), p.config.compression), batches, p.config.maxSize, cuts, files, n)
  }

  /** A fresh partition has one segment with an empty file. */
  lemma FirstFile(p: Partition, batches: seq<seq<Message>>) returns (files: seq<seq<byte>>)
    requires p.Valid() && p.Ready() && p.log == [] && |Flat(batches)| < TWO_64
    ensures Filled(p, batches, [0], files, 0)
  {
    files := [p.Last().logFile];
    assert p.bases[0] == p.bases[|p.bases| - 1] == 0;
    p.LastPart();
    assert PartAt(p.log, p.bases, p.parts[0], 0);
    ImageNil(p.format);
    var all := Stamped(0, Flat(batches), p.config.compression);
    assert batches[..0] == [] && all[0..0] == [];
    assert p.Last().logFile == [] + p.Last().torn == [];
    assert Fills(p.format, all, batches, p.config.maxSize, 0, 0, false, files[0]);
  }

  lemma FilledAll(p: Partition, batches: seq<seq<Message>>, cuts: seq<nat>, files: seq<seq<byte>>)
    requires |Flat(batches)| < TWO_64 && Filled(p, batches, cuts, files, |batches|)
    ensures p.Valid() && p.Ready() && p.log == Stamped(0, Flat(batches), p.config.compression)
    ensures LogFiles(p.segments, files) && FilledBy(p.format, p.log, batches, p.config.maxSize, cuts, files, |batches|)
  {
    assert batches[..|batches|] == batches;
  }

  /** What an append does to the files of the segments. */
  method AppendTracked(p: Partition, messages: seq<Message>, ghost files: seq<seq<byte>>)
    returns (res: Result<u64, StorageError>, ghost files': seq<seq<byte>>)
    requires p.Valid() && p.Ready() && messages != [] && LogFiles(p.segments, files)
    requires |p.log| + |messages| < TWO_64 && AllStorable(p.format, Stamped(|p.log|, messages, p.config.compression))
    requires |p.format.image(p.log)| + |p.format.image(Stamped(|p.log|, messages, p.config.compression))| < TWO_64
    modifies p, p.Last(), p.Last().index
    ensures p.Valid() && p.Ready() && LogFiles(p.segments, files')
    ensures p.Last() == old(p.Last()) || (fresh(p.Last()) && fresh(p.Last().index))
    ensures res == Ok(|old(p.log)|) && p.log == old(p.log) + Stamped(|old(p.log)|, messages, p.config.compression)
    ensures |files| > 0
    ensures var z, more := |files| - 1, p.format.image(Stamped(|old(p.log)|, messages, p.config.compression));
            files' == if |files[z]| >= p.config.maxSize then files + [more] else files[z := files[z] + more]
  {
    ActiveIsPart(p);
    p.LastPart();
    ghost var segments, z := p.segments, |files| - 1;
    assert forall k :: 0 <= k < z ==> segments[k] != segments[z] && segments[k].logFile == files[k];
    res := p.Append(messages);
    assert forall k :: 0 <= k < z ==> segments[k].logFile == files[k];
    ghost var more := p.format.image(Stamped(|old(p.log)|, messages, p.config.compression));
    assert [] + more == more;
    files' := if |files[z]| >= p.config.maxSize then files + [more] else files[z := files[z] + more];
  }

  lemma BatchComesNext(p: Partition, batches: seq<seq<Message>>, n: nat)
    requires p.format.Faithful() && n < |batches| && |Flat(batches)| < TWO_64
    requires AllStorable(p.format, Stamped(0, Flat(batches), p.config.compression))
    ensures Count(batches, n) + |batches[n]| == Count(batches, n + 1) <= |Flat(batches)|
    ensures var c, all, before := p.config.compression, Stamped(0, Flat(batches), p.config.compression), Count(batches, n);
            && Stamped(0, Flat(batches[..n + 1]), c) == Stamped(0, Flat(batches[..n]), c) + Stamped(before, batches[n], c)
            && Stamped(before, batches[n], c) == all[before..Count(batches, n + 1)]
            && AllStorable(p.format, Stamped(before, batches[n], c))
            && |p.format.image(Stamped(0, Flat(batches[..n]), c))| + |p.format.image(Stamped(before, batches[n], c))|
               <= |p.format.image(all)|
  {
    FlatSnoc(batches, n);
    FlatGrows(batches, n + 1);
    NextBatch(p.format, p.config.compression, Flat(batches), Flat(batches[..n]), batches[n]);
  }

  /** The offsets returned so far: how many messages each batch had before it. */
  ghost predicate Offsets(batches: seq<seq<Message>>, offsets: seq<u64>, n: nat) {
    |offsets| == n <= |batches| && forall i :: 0 <= i < n ==> offsets[i] == Count(batches, i)
  }

  lemma OffsetsSnoc(batches: seq<seq<Message>>, offsets: seq<u64>, n: nat, offset: u64)
    requires Offsets(batches, offsets, n) && n < |batches| && offset == Count(batches, n)
    ensures Offsets(batches, offsets + [offset], n + 1)
  {
  }

  /** One append of AppendAll. */
  method AppendNext(p: Partition, batches: seq<seq<Message>>, n: nat, offsets: seq<u64>,
                    ghost cuts: seq<nat>, ghost files: seq<seq<byte>>)
    returns (offsets': seq<u64>, ghost cuts': seq<nat>, ghost files': seq<seq<byte>>)
    requires n < |batches| && batches[n] != [] && |Flat(batches)| < TWO_64
    requires AllStorable(p.format, Stamped(0, Flat(batches), p.config.compression))
    requires |p.format.image(Stamped(0, Flat(batches), p.config.compression))| < TWO_64
    requires Offsets(batches, offsets, n) && Filled(p, batches, cuts, files, n)
    modifies p, p.Last(), p.Last().index
    ensures Offsets(batches, offsets', n + 1) && Filled(p, batches, cuts', files', n + 1)
    ensures p.Last() == old(p.Last()) || (fresh(p.Last()) && fresh(p.Last().index))
  {
    BatchComesNext(p, batches, n);
    cuts' := if |files[|files| - 1]| >= p.config.maxSize then cuts + [n] else cuts;
    var res;
    res, files' := AppendTracked(p, batches[n], files);
    OffsetsSnoc(batches, offsets, n, res.value);
    offsets' := offsets + [res.value];
    FilledOneMore(p.format, Stamped(0, Flat(batches), p.config.compression), batches, p.config.maxSize,
                  cuts, files, n, cuts', files');
  }

  /** Appends batch after batch. Every segment but the last ends up with a file
      of at least the size limit, and no file had reached it before its last
      batch; cuts[k] is the first batch of segment k. */
  method AppendAll(p: Partition, batches: seq<seq<Message>>)
    returns (offsets: seq<u64>, ghost cuts: seq<nat>, ghost files: seq<seq<byte>>)
    requires p.Valid() && p.Ready() && p.log == [] && forall i :: 0 <= i < |batches| ==> batches[i] != []
    requires |Flat(batches)| < TWO_64 && AllStorable(p.format, Stamped(0, Flat(batches), p.config.compression))
    requires |p.format.image(Stamped(0, Flat(batches), p.config.compression))| < TWO_64
    modifies p, p.Last(), p.Last().index
    ensures p.Valid() && p.Ready() && p.log == Stamped(0, Flat(batches), p.config.compression)
    ensures |offsets| == |batches| && forall i :: 0 <= i < |batches| ==> offsets[i] == |Flat(batches[..i])|
    ensures LogFiles(p.segments, files) && FilledBy(p.format, p.log, batches, p.config.maxSize, cuts, files, |batches|)
  {
    files := FirstFile(p, batches);
    offsets, cuts, files := AppendEach(p, batches, files);
    FilledAll(p, batches, cuts, files);
  }

  /** AppendAll's loop. */
  method AppendEach(p: Partition, batches: seq<seq<Message>>, ghost first: seq<seq<byte>>)
    returns (offsets: seq<u64>, ghost cuts: seq<nat>, ghost files: seq<seq<byte>>)
    requires |Flat(batches)| < TWO_64 && AllStorable(p.format, Stamped(0, Flat(batches), p.config.compression))
    requires |p.format.image(Stamped(0, Flat(batches), p.config.compression))| < TWO_64
    requires Filled(p, batches, [0], first, 0) && forall i :: 0 <= i < |batches| ==> batches[i] != []
    modifies p, p.Last(), p.Last().index
    ensures Offsets(batches, offsets, |batches|) && Filled(p, batches, cuts, files, |batches|)
  {
    offsets := [];
    cuts, files := [0], first;
    ghost var last := p.Last();
    for i := 0 to |batches|
      invariant Offsets(batches, offsets, i) && Filled(p, batches, cuts, files, i)
      invariant p.Last() == last || (fresh(p.Last()) && fresh(p.Last().index))
    {
      offsets, cuts, files := AppendNext(p, batches, i, offsets, cuts, files);
    }
  }

  /** A fetch of the flat log of messages gives the messages. */
  lemma FetchedMessages(topic: string, partition: u32, ms: seq<Message>, c: Compression, offset: nat, got: seq<Fetched>)
    requires |ms| < TWO_64 && (got == [] || offset + |got| <= |ms|)
    requires forall i :: 0 <= i < |got| ==>
               && got[i].topic == topic && got[i].partition == partition && got[i].offset == offset + i
               && got[i].message.key == Stamped(0, ms, c)[offset + i].key
               && got[i].message.value == Stamped(0, ms, c)[offset + i].value
               && got[i].message.timestamp == Stamped(0, ms, c)[offset + i].timestamp
    ensures forall i :: 0 <= i < |got| ==> got[i] == Fetched(topic, partition, offset + i, ms[offset + i])
  {
    forall i | 0 <= i < |got|
      ensures got[i] == Fetched(topic, partition, offset + i, ms[offset + i])
    {
      assert Stamped(0, ms, c)[offset + i] == Stamp(offset + i, ms[offset + i], c);
    }
  }

  method FetchMessages(p: Partition, ghost ms: seq<Message>, offset: nat, max: u32) returns (res: Result<seq<Fetched>, StorageError>)
    requires p.Valid() && |ms| < TWO_64 && p.log == Stamped(0, ms, p.config.compression)
    ensures res.Ok?
    ensures |res.value| == if offset >= |ms| then 0 else if |ms| - offset <= max then |ms| - offset else max
    ensures forall i :: 0 <= i < |res.value| ==> res.value[i] == Fetched(p.topic, p.partitionId, offset + i, ms[offset + i])
  {
    res := p.Fetch(offset, max);
    FetchedMessages(p.topic, p.partitionId, ms, p.config.compression, offset, res.value);
  }

  /** For any batches appended to a fresh partition, whatever its segment size
      and index interval, each append returns how many messages there were
      before it, and a fetch before and a fetch after closing and reopening the
      partition both give back the messages themselves, from the offset on, as
      many as asked for or as there are. */
  method WriteThenRead(format: Format, topic: string, partitionId: u32, config: Config, batches: seq<seq<Message>>,
                       offset: nat, max: u32)
    returns (offsets: seq<u64>, fetched: Result<seq<Fetched>, StorageError>, again: Result<seq<Fetched>, StorageError>)
    requires format.Faithful() && config.maxSize > 0
    requires forall i :: 0 <= i < |batches| ==> batches[i] != []
    requires |Flat(batches)| < TWO_64 && AllStorable(format, Stamped(0, Flat(batches), config.compression))
    requires |format.image(Stamped(0, Flat(batches), config.compression))| < TWO_64
    ensures |offsets| == |batches| && forall i :: 0 <= i < |batches| ==> offsets[i] == |Flat(batches[..i])|
    ensures fetched.Ok?
    ensures var total := |Flat(batches)|;
            |fetched.value| == if offset >= total then 0 else if total - offset <= max then total - offset else max
    ensures forall i :: 0 <= i < |fetched.value| ==>
              fetched.value[i] == Fetched(topic, partitionId, offset + i, Flat(batches)[offset + i])
    ensures again == fetched
  {
    var p := new Partition.Create(format, topic, partitionId, config);
    ghost var cuts, files;
    offsets, cuts, files := AppendAll(p, batches);
    fetched := FetchMessages(p, Flat(batches), offset, max);
    var q := Reopen(p);
    again := FetchMessages(q, Flat(batches), offset, max);
    assert again.value == fetched.value;
  }
}
