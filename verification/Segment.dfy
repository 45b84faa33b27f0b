/** One segment of a partition's log: storage/src/segment.rs. */
module Segment {
  import opened Bytes
  import opened DiskRecord
  import opened RecordFormat
  import opened LogImage
  import OI = OffsetIndex

  datatype Config = Config(maxSize: u64, indexInterval: u32, compression: Compression)

  datatype StorageError =
    | InvalidOffset(offset: nat)
    | NotMapped
    | Undecodable(cause: DecodeError)
    | NoMessages
    | NoSegments

  // ------------------------------------------------------- index invariant

  /** The offsets of the records are base, base + 1, and so on. */
  ghost predicate Numbered(base: nat, rs: seq<Record>) {
    forall i :: 0 <= i < |rs| ==> rs[i].offset == base + i
  }

  /** Entries are in order, none is below the base, and an entry for a record
      that is in the file holds the byte at which that very record starts. An
      entry for the first record the file has lost points at its end; entries
      for later lost records are harmless. */
  ghost predicate IndexSound(f: Format, es: seq<OI.Entry>, base: nat, rs: seq<Record>) {
    && OI.Sorted(es)
    && (forall i :: 0 <= i < |es| ==> es[i].offset >= base)
    && (forall i :: 0 <= i < |es| && es[i].offset <= base + |rs| ==>
          es[i].position == Position(f, rs, es[i].offset - base))
  }

  ghost predicate IndexWithin(es: seq<OI.Entry>, next: nat) {
    forall i :: 0 <= i < |es| ==> es[i].offset < next
  }

  /** How far apart entries are: one record apart for intervals 0 and 1. */
  function Stride(interval: nat): nat {
    if interval == 0 then 1 else interval
  }

  /** Entry i is for offset base + interval + i * stride, and every record
      that far into the segment has its entry. */
  ghost predicate Spaced(es: seq<OI.Entry>, base: nat, count: nat, since: nat, interval: nat) {
    && (forall i :: 0 <= i < |es| ==> es[i].offset == base + interval + i * Stride(interval))
    && (if interval == 0 then |es| == count && since <= 1
        else count == |es| * interval + since && since <= interval && (|es| > 0 ==> since > 0))
  }

  /** The record a scan for `target` starts at: the floor entry's, or the first. */
  ghost predicate StartsAt(f: Format, es: seq<OI.Entry>, base: nat, rs: seq<Record>, target: nat, k: nat, p: nat) {
    && k <= |rs| && base + k <= target
    && p == Position(f, rs, k)
    && (k == 0 || exists i :: 0 <= i < |es| && es[i].offset == base + k)
    && forall i :: 0 <= i < |es| && es[i].offset <= target ==> es[i].offset <= base + k
  }

  lemma FloorStartsAt(f: Format, es: seq<OI.Entry>, base: nat, rs: seq<Record>, target: nat, p: Option<nat>)
    returns (k: nat)
    requires f.Faithful() && IndexSound(f, es, base, rs) && OI.IsFloor(es, target, p) && base <= target
    requires target <= base + |rs|
    ensures StartsAt(f, es, base, rs, target, k, if p.Some? then p.value else 0)
  {
    if p.Some? {
      var i :| 0 <= i < |es| && es[i].position == p.value && es[i].offset <= target
               && forall j :: i < j < |es| ==> es[j].offset > target;
      k := es[i].offset - base;
    } else {
      k := 0;
      ImageNil(f);
      assert rs[..0] == [];
    }
  }

  /** With evenly spaced entries a scan decodes at most one stride of records. */
  lemma ScanIsShort(f: Format, es: seq<OI.Entry>, base: nat, rs: seq<Record>, since: nat, interval: nat,
                    target: nat, k: nat, p: nat)
    requires Spaced(es, base, |rs|, since, interval) && base <= target < base + |rs|
    requires StartsAt(f, es, base, rs, target, k, p)
    ensures target - (base + k) < Stride(interval)
  {
    var stride := Stride(interval);
    if target - (base + k) >= stride {
      var n := NextEntry(es, base, |rs|, since, interval, k);
    }
  }

  /** The entry one stride after the start of a scan exists when a record does. */
  lemma NextEntry(es: seq<OI.Entry>, base: nat, count: nat, since: nat, interval: nat, k: nat) returns (n: nat)
    requires Spaced(es, base, count, since, interval)
    requires k == 0 || exists i :: 0 <= i < |es| && es[i].offset == base + k
    requires k + Stride(interval) < count
    ensures n < |es| && base + k < es[n].offset <= base + k + Stride(interval)
  {
    var stride := Stride(interval);
    if k == 0 && interval == 0 {
      n := 1;
    } else if k == 0 {
      n := 0;
    } else {
      var i :| 0 <= i < |es| && es[i].offset == base + k;
      n := i + 1;
      assert (i + 1) * stride == i * stride + stride;
    }
  }

  /** Adding records behind keeps the index sound. */
  lemma IndexStaysSound(f: Format, es: seq<OI.Entry>, base: nat, rs: seq<Record>, r: Record)
    requires IndexSound(f, es, base, rs) && IndexWithin(es, base + |rs|)
    ensures IndexSound(f, es, base, rs + [r]) && IndexWithin(es, base + |rs| + 1)
  {
    forall i | 0 <= i < |es|
      ensures es[i].position == Position(f, rs + [r], es[i].offset - base)
    {
      PositionStable(f, rs, [r], es[i].offset - base);
    }
  }

  /** An entry for the record about to be written goes at the end of the file. */
  lemma IndexGrows(f: Format, es: seq<OI.Entry>, base: nat, rs: seq<Record>, r: Record, e: OI.Entry)
    requires IndexSound(f, es, base, rs) && IndexWithin(es, base + |rs|)
    requires e.offset == base + |rs| && e.position == |f.image(rs)|
    ensures IndexSound(f, es + [e], base, rs + [r]) && IndexWithin(es + [e], base + |rs| + 1)
  {
    IndexStaysSound(f, es, base, rs, r);
    PositionStable(f, rs, [r], |rs|);
    assert rs[..|rs|] == rs;
  }

  lemma SpacedStep(es: seq<OI.Entry>, base: nat, count: nat, since: nat, interval: nat)
    requires Spaced(es, base, count, since, interval) && since < interval
    ensures Spaced(es, base, count + 1, since + 1, interval)
  {
  }

  lemma SpacedEntry(es: seq<OI.Entry>, base: nat, count: nat, since: nat, interval: nat, e: OI.Entry)
    requires Spaced(es, base, count, since, interval) && since >= interval && e.offset == base + count
    ensures Spaced(es + [e], base, count + 1, 1, interval)
  {
    assert (|es| + 1) * interval == |es| * interval + interval;
    if interval > 0 {
      assert e.offset == base + interval + |es| * interval;
    }
  }

  // ------------------------------------------------------------ the segment

  /** Up to n elements of s from index `from`, which may lie past the end. */
  function Slice<T>(s: seq<T>, from: nat, n: nat): seq<T> {
    if from >= |s| then [] else s[from..if from + n <= |s| then from + n else |s|]
  }

  /** What scan_for_next_offset finds: a file that holds only a torn record
      is counted as one record. */
  function ScannedNext(base: nat, count: nat, fileIsEmpty: bool): nat {
    if count == 0 && !fileIsEmpty then base + 1 else base + count
  }

  /** The record that append writes for a message. */
  function Stamp(offset: u64, m: Message, c: Compression): Record {
    Record(offset, m.timestamp, m.key, m.value, c)
  }

  function Stamped(base: nat, ms: seq<Message>, c: Compression): (rs: seq<Record>)
    requires base + |ms| <= TWO_64
    ensures |rs| == |ms|
    ensures forall i :: 0 <= i < |rs| ==> rs[i] == Stamp(base + i, ms[i], c)
  {
    seq(|ms|, i requires 0 <= i < |ms| => Stamp(base + i, ms[i], c))
  }

  lemma BatchFits(f: Format, rs: seq<Record>, i: nat)
    requires f.Faithful() && i < |rs|
    ensures f.image(rs[..i + 1]) == f.image(rs[..i]) + f.encode(rs[i])
    ensures |f.image(rs[..i + 1])| <= |f.image(rs)|
  {
    assert rs[..i + 1] == rs[..i] + [rs[i]];
    ImageSnoc(f, rs[..i], rs[i]);
    ImageFrom(f, rs, [], i + 1);
  }

  class LogSegment {
    const format: Format
    const baseOffset: u64
    const config: Config
    const index: OI.OffsetIndex
    var logFile: seq<byte>
    var mmap: Option<seq<byte>>
    var size: u64
    var nextOffset: u64
    var recordsSinceIndex: u32

    /** The whole records in the file, and the torn tail after them. */
    ghost var records: seq<Record>
    ghost var torn: seq<byte>

    ghost predicate Valid()
      reads this, index
    {
      && format.Faithful()
      && logFile == format.image(records) + torn
      && format.Torn(torn)
      && AllStorable(format, records)
      && Numbered(baseOffset, records)
      && nextOffset == ScannedNext(baseOffset, |records|, logFile == [])
      && size == |logFile|
      && mmap == (if logFile == [] then None else Some(logFile))
      && index.Consistent()
      && IndexSound(format, index.contents, baseOffset, records)
    }

    /** No offset is skipped: see ScannedNext. */
    ghost predicate Gapless()
      reads this
    {
      nextOffset == baseOffset + |records|
    }

    /** A batch of n messages can be appended: nothing torn lies at the end of
        the file, and either index writes land at the end of the index or this
        batch makes none. A reopened segment can take interval more records. */
    ghost predicate Appendable(n: nat)
      reads this, index
    {
      && torn == []
      && Gapless()
      && IndexWithin(index.contents, nextOffset)
      && (index.AtEnd() || recordsSinceIndex + n <= config.indexInterval)
    }

    /** A batch of any size can be appended. */
    ghost predicate Ready()
      reads this, index
    {
      torn == [] && Gapless() && IndexWithin(index.contents, nextOffset) && index.AtEnd()
    }

    /** Index entries sit exactly one interval apart. */
    ghost predicate Regular()
      reads this, index
    {
      && index.AtEnd()
      && Spaced(index.contents, baseOffset, |records|, recordsSinceIndex, config.indexInterval)
    }

    /** LogSegment::create on paths that do not exist yet. */
    constructor Create(format: Format, base: u64, config: Config)
      requires format.Faithful()
      ensures Valid() && Regular() && Gapless() && records == [] && torn == [] && fresh(index)
      ensures this.format == format && baseOffset == base && this.config == config
      ensures Ready()
    {
      this.format, baseOffset, this.config := format, base, config;
      index := new OI.OffsetIndex.Create();
      logFile, mmap, size, nextOffset, recordsSinceIndex := [], None, 0, base, 0;
      records, torn := [], [];
      ImageNil(format);
    }

    /** LogSegment::open. The ghost arguments name what the files hold. */
    constructor Open(format: Format, base: u64, config: Config, log: seq<byte>, idx: seq<byte>,
                     ghost rs: seq<Record>, ghost tail: seq<byte>)
      requires format.Faithful() && |log| < TWO_64 && ScannedNext(base, |rs|, log == []) < TWO_64
      requires log == format.image(rs) + tail && format.Torn(tail)
      requires AllStorable(format, rs) && Numbered(base, rs)
      requires IndexSound(format, OI.Entries(idx, |idx| / OI.ENTRY_SIZE), base, rs)
      ensures Valid() && records == rs && torn == tail && fresh(index)
      ensures this.format == format && baseOffset == base && this.config == config
      ensures logFile == log && recordsSinceIndex == 0
      ensures index.file == idx && index.cursor == 0 && index.contents == OI.Entries(idx, |idx| / OI.ENTRY_SIZE)
    {
      this.format, baseOffset, this.config := format, base, config;
      logFile, size := log, |log|;
      index := new OI.OffsetIndex.Open(idx);
      mmap := if |log| > 0 then Some(log) else None;
      nextOffset, recordsSinceIndex := 0, 0;
      records, torn := rs, tail;
      new;
      var next := ScanForNextOffset(format, base, log, rs, tail);
      nextOffset := next;
    }

    /** Reopening counts the records right except for a file that holds no
        whole record but is not empty; then it skips one offset. */
    static method ScanForNextOffset(format: Format, base: u64, log: seq<byte>, ghost rs: seq<Record>, ghost tail: seq<byte>)
      returns (next: nat)
      requires format.Faithful() && log == format.image(rs) + tail && format.Torn(tail)
      requires AllStorable(format, rs) && Numbered(base, rs)
      ensures next == ScannedNext(base, |rs|, log == [])
      ensures next == base + |rs| <==> (log == [] || |rs| > 0)
    {
      if |log| == 0 {
        ImageEmpty(format, rs, tail);
        return base;
      }
      ImageEmpty(format, rs, tail);
      var cursor := new Cursor(log);
      var lastOffset: nat := base;
      ghost var k := 0;
      assert rs[0..] == rs;
      while true
        invariant cursor.Valid() && fresh(cursor)
        invariant k <= |rs| && cursor.Rest() == format.image(rs[k..]) + tail
        invariant lastOffset == if k == 0 then base else base + k - 1
        decreases |rs| - k
      {
        NextRecord(format, rs, tail, k);
        var next := format.Read(cursor);
        match next
        case Ok(record) =>
          lastOffset := record.offset;
          k := k + 1;
        case Err(_) =>
          break;
      }
      return lastOffset + 1;
    }

    /** The segment between two writes of one append: size and map are stale. */
    ghost predicate Writing(position: nat)
      reads this, index
    {
      && format.Faithful()
      && AllStorable(format, records)
      && Numbered(baseOffset, records)
      && torn == []
      && logFile == format.image(records)
      && position == |logFile|
      && Gapless()
      && index.Consistent()
      && IndexSound(format, index.contents, baseOffset, records)
      && IndexWithin(index.contents, nextOffset)
    }

    /** Index every interval-th record: the record about to be written is
        noted when enough records have gone by. `sound` says that the segment
        can take the record, see Appendable. */
    method NoteInIndex(position: u64, ghost record: Record, ghost sound: bool)
      requires index.cursor <= |index.file|
      requires sound ==>
                 && format.Faithful() && Gapless() && record.offset == nextOffset && position == |format.image(records)|
                 && index.Consistent() && IndexWithin(index.contents, nextOffset)
                 && IndexSound(format, index.contents, baseOffset, records)
                 && (index.AtEnd() || recordsSinceIndex + 1 <= config.indexInterval)
      modifies this`recordsSinceIndex, index
      ensures index.cursor <= |index.file| && index.AtEnd() == old(index.AtEnd())
      ensures index.contents == if old(recordsSinceIndex) >= config.indexInterval
                                then old(index.contents) + [OI.Entry(nextOffset, position)] else old(index.contents)
      ensures recordsSinceIndex == if old(recordsSinceIndex) >= config.indexInterval then 1 else old(recordsSinceIndex) + 1
      ensures sound ==>
                && index.Consistent() && IndexWithin(index.contents, nextOffset + 1)
                && IndexSound(format, index.contents, baseOffset, records + [record])
                && (old(Regular()) ==>
                      Spaced(index.contents, baseOffset, |records| + 1, recordsSinceIndex, config.indexInterval))
    {
      ghost var es := index.contents;
      if recordsSinceIndex >= config.indexInterval {
        ghost var entry := OI.Entry(nextOffset, position);
        index.Append(nextOffset, position);
        if sound {
          IndexGrows(format, es, baseOffset, records, record, entry);
          if old(Regular()) {
            SpacedEntry(es, baseOffset, |records|, recordsSinceIndex, config.indexInterval, entry);
          }
        }
        recordsSinceIndex := 0;
      } else if sound {
        IndexStaysSound(format, es, baseOffset, records, record);
        if old(Regular()) {
          SpacedStep(es, baseOffset, |records|, recordsSinceIndex, config.indexInterval);
        }
      }
      recordsSinceIndex := recordsSinceIndex + 1;
    }

    /** One turn of append's loop. */
    method AppendOne(message: Message, currentPosition: u64, ghost sound: bool) returns (position: u64)
      requires format.Faithful() && index.cursor <= |index.file|
      requires nextOffset + 1 < TWO_64
      requires currentPosition + |format.encode(Stamp(nextOffset, message, config.compression))| < TWO_64
      requires sound ==>
                 && Writing(currentPosition)
                 && (index.AtEnd() || recordsSinceIndex + 1 <= config.indexInterval)
                 && format.storable(Stamp(nextOffset, message, config.compression))
      modifies this`logFile, this`nextOffset, this`recordsSinceIndex, this`records, index
      ensures logFile == old(logFile) + format.encode(Stamp(old(nextOffset), message, config.compression))
      ensures position == currentPosition + |format.encode(Stamp(old(nextOffset), message, config.compression))|
      ensures nextOffset == old(nextOffset) + 1
      ensures records == old(records) + [Stamp(old(nextOffset), message, config.compression)]
      ensures index.cursor <= |index.file| && index.AtEnd() == old(index.AtEnd())
      ensures old(recordsSinceIndex) < config.indexInterval ==> recordsSinceIndex == old(recordsSinceIndex) + 1
      ensures sound ==> Writing(position) && (old(Regular()) ==> Regular())
    {
      var record := Stamp(nextOffset, message, config.compression);
      var encoded := format.Write(record);
      ImageSnoc(format, records, record);
      NoteInIndex(currentPosition, record, sound);
      logFile := logFile + encoded;
      position := currentPosition + |encoded|;
      nextOffset := nextOffset + 1;
      records := records + [record];
    }

    /** Append's loop. */
    method AppendAll(messages: seq<Message>, start: u64, ghost stamped: seq<Record>, ghost sound: bool)
      returns (currentPosition: u64)
      requires format.Faithful() && index.cursor <= |index.file|
      requires nextOffset + |messages| < TWO_64 && stamped == Stamped(nextOffset, messages, config.compression)
      requires start + |format.image(stamped)| < TWO_64
      requires sound ==>
                 && Writing(start)
                 && (index.AtEnd() || recordsSinceIndex + |messages| <= config.indexInterval)
                 && AllStorable(format, stamped)
      modifies this`logFile, this`nextOffset, this`recordsSinceIndex, this`records, index
      ensures logFile == old(logFile) + format.image(stamped) && currentPosition == start + |format.image(stamped)|
      ensures nextOffset == old(nextOffset) + |messages| && records == old(records) + stamped
      ensures index.cursor <= |index.file| && index.AtEnd() == old(index.AtEnd())
      ensures sound ==> Writing(currentPosition) && (old(Regular()) ==> Regular())
    {
      currentPosition := start;
      assert stamped[..0] == [] && records + [] == records;
      ImageNil(format);
      assert logFile + [] == logFile;
      var i := 0;
      while i < |messages|
        invariant 0 <= i <= |messages| && nextOffset == old(nextOffset) + i
        invariant records == old(records) + stamped[..i] && logFile == old(logFile) + format.image(stamped[..i])
        invariant currentPosition == start + |format.image(stamped[..i])|
        invariant index.cursor <= |index.file| && index.AtEnd() == old(index.AtEnd())
        invariant sound ==> Writing(currentPosition) && (old(Regular()) ==> Regular())
        invariant sound && !old(index.AtEnd()) ==> recordsSinceIndex + |messages| - i <= config.indexInterval
      {
        BatchFits(format, stamped, i);
        currentPosition := AppendOne(messages[i], currentPosition, sound);
        assert stamped[..i + 1] == stamped[..i] + [stamped[i]];
        i := i + 1;
      }
      assert stamped[..i] == stamped;
    }

    /** Writes the whole batch behind whatever the file holds and returns the
        offset of its first message. The segment stays valid, with the batch's
        records behind its own, when it can take the batch: see Appendable. */
    method Append(messages: seq<Message>) returns (res: Result<u64, StorageError>)
      requires Valid() && nextOffset + |messages| < TWO_64
      requires size + |format.image(Stamped(nextOffset, messages, config.compression))| < TWO_64
      modifies this, index
      ensures res == if messages == [] then Err(NoMessages) else Ok(old(nextOffset))
      ensures nextOffset == old(nextOffset) + |messages|
      ensures logFile == old(logFile) + format.image(old(Stamped(nextOffset, messages, config.compression)))
      ensures size == |logFile| && mmap == if logFile == [] then None else Some(logFile)
      ensures index.AtEnd() == old(index.AtEnd())
      ensures old(Appendable(|messages|) && AllStorable(format, Stamped(nextOffset, messages, config.compression))) ==>
                && Valid() && Gapless() && torn == []
                && records == old(records) + old(Stamped(nextOffset, messages, config.compression))
                && (index.AtEnd() ==> Ready())
                && (old(Regular()) ==> Regular())
    {
      ghost var stamped := Stamped(nextOffset, messages, config.compression);
      ghost var sound := Appendable(|messages|) && AllStorable(format, stamped);
      ImageNil(format);
      if messages == [] {
        assert stamped == [] && logFile + [] == logFile && records + [] == records;
        return Err(NoMessages);
      }
      var base := nextOffset;
      assert sound ==> logFile == format.image(records) + [] == format.image(records);
      size := AppendAll(messages, size, stamped, sound);
      Remap();
      ImageEmpty(format, stamped, []);
      assert format.image(stamped) + [] == format.image(stamped);
      if sound {
        ImageEmpty(format, records, torn);
        assert logFile == format.image(records) + torn;
      }
      return Ok(base);
    }

    method Remap()
      modifies this`mmap
      ensures mmap == if logFile == [] then old(mmap) else Some(logFile)
    {
      if |logFile| > 0 {
        mmap := Some(logFile);
      }
    }

    /** Finds the position to scan from. */
    method StartPosition(target: nat) returns (position: nat, ghost k: nat)
      requires Valid() && baseOffset <= target <= baseOffset + |records|
      ensures StartsAt(format, index.contents, baseOffset, records, target, k, position)
      ensures position <= |logFile|
      ensures logFile[position..] == format.image(records[k..]) + torn
    {
      var found := index.Lookup(target);
      k := FloorStartsAt(format, index.contents, baseOffset, records, target, found);
      position := if found.Some? then found.value else 0;
      ImageFrom(format, records, torn, k);
    }

    /** read's loop: decode until the offset is reached. */
    static method ScanFor(format: Format, cursor: Cursor, offset: nat,
                          ghost base: nat, ghost rs: seq<Record>, ghost tail: seq<byte>, ghost start: nat)
      returns (res: Result<Record, StorageError>, ghost decoded: nat)
      requires format.Faithful() && AllStorable(format, rs) && format.Torn(tail) && Numbered(base, rs)
      requires start <= |rs| && base + start <= offset <= base + |rs|
      requires cursor.Valid() && cursor.Rest() == format.image(rs[start..]) + tail
      modifies cursor
      ensures decoded == offset - base - start + 1
      ensures if offset < base + |rs| then res == Ok(rs[offset - base]) else res.Err? && res.error.Undecodable?
    {
      ghost var k := start;
      decoded := 0;
      while true
        invariant cursor.Valid()
        invariant start <= k <= offset - base && decoded == k - start
        invariant cursor.Rest() == format.image(rs[k..]) + tail
        decreases offset - base - k
      {
        NextRecord(format, rs, tail, k);
        var next := format.Read(cursor);
        decoded := decoded + 1;
        match next
        case Err(cause) =>
          return Err(Undecodable(cause)), decoded;
        case Ok(record) =>
          if record.offset == offset {
            return Ok(record), decoded;
          }
          if record.offset > offset {
            return Err(InvalidOffset(offset)), decoded;
          }
          k := k + 1;
      }
    }

    /** read_batch's loop: skip to the start, then collect until enough or
        until the file ends or is torn. */
    static method Collect(format: Format, cursor: Cursor, start: nat, maxCount: u32,
                          ghost base: nat, ghost rs: seq<Record>, ghost tail: seq<byte>, ghost from: nat)
      returns (out: seq<Record>)
      requires format.Faithful() && AllStorable(format, rs) && format.Torn(tail) && Numbered(base, rs)
      requires from <= |rs| && base + from <= start
      requires cursor.Valid() && cursor.Rest() == format.image(rs[from..]) + tail
      modifies cursor
      ensures out == Slice(rs, start - base, maxCount)
    {
      ghost var k := from;
      ghost var first := start - base;
      var foundStart := false;
      out := [];
      while |out| < maxCount
        invariant cursor.Valid()
        invariant from <= k <= |rs| && cursor.Rest() == format.image(rs[k..]) + tail
        invariant out == (if k <= first then [] else rs[first..k]) && |out| <= maxCount
        invariant foundStart <==> out != []
        decreases |rs| - k
      {
        NextRecord(format, rs, tail, k);
        var next := format.Read(cursor);
        match next
        case Ok(record) =>
          k := k + 1;
          if record.offset >= start {
            foundStart := true;
            out := out + [record];
          } else if !foundStart {
            continue;
          }
        case Err(_) =>
          break;
      }
    }

    /** Reads one record; `decoded` counts the records the scan tried to decode.
        Only a skipped offset, in a file without a whole record, is in range
        and cannot be decoded. */
    method Read(offset: nat) returns (res: Result<Record, StorageError>, ghost decoded: nat)
      requires Valid()
      ensures !(baseOffset <= offset < nextOffset) ==> res == Err(InvalidOffset(offset))
      ensures baseOffset <= offset < nextOffset && offset < baseOffset + |records| ==> res == Ok(records[offset - baseOffset])
      ensures baseOffset + |records| <= offset < nextOffset ==> !Gapless() && res.Err? && res.error.Undecodable?
      ensures Regular() && Gapless() ==> decoded <= Stride(config.indexInterval)
    {
      decoded := 0;
      if offset < baseOffset {
        return Err(InvalidOffset(offset)), 0;
      }
      if offset >= nextOffset {
        return Err(InvalidOffset(offset)), 0;
      }
      ImageEmpty(format, records, torn);
      var bytes := mmap.value;
      var position, k := StartPosition(offset);
      ghost var start := k;
      if Regular() && Gapless() {
        ScanIsShort(format, index.contents, baseOffset, records, recordsSinceIndex, config.indexInterval, offset, k, position);
      }
      var cursor := new Cursor(bytes[position..]);
      res, decoded := ScanFor(format, cursor, offset, baseOffset, records, torn, start);
    }

    /** Reads up to maxCount records: exactly a slice of the segment, whatever
        the index holds and whatever torn bytes follow. */
    method ReadBatch(start: nat, maxCount: u32) returns (res: Result<seq<Record>, StorageError>)
      requires Valid()
      ensures res == if start < baseOffset then Err(InvalidOffset(start))
                     else Ok(Slice(records, start - baseOffset, maxCount))
    {
      if start < baseOffset {
        return Err(InvalidOffset(start));
      }
      if start >= nextOffset {
        return Ok([]);
      }
      if mmap.None? {
        ImageEmpty(format, records, torn);
        return Err(NotMapped);
      }
      var bytes := mmap.value;
      var position, k := StartPosition(start);
      var cursor := new Cursor(bytes[position..]);
      var out := Collect(format, cursor, start, maxCount, baseOffset, records, torn, k);
      return Ok(out);
    }

    /** should_rotate */
    predicate ShouldRotate()
      reads this
    {
      size >= config.maxSize
    }
  }
}
