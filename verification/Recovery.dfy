/** Closing, crashing and reopening a partition: storage/src/partition.rs and
    storage/src/segment.rs. */
module Recovery {
  import opened Bytes
  import opened DiskRecord
  import opened RecordFormat
  import opened LogImage
  import opened Segment
  import opened Partition
  import OI = OffsetIndex

  /** The guard of a safe append to a reopened segment: nothing torn at its
      end and no index entry beyond its records. */
  ghost predicate Clean(s: LogSegment)
    reads s, s.index
  {
    s.torn == [] && IndexWithin(s.index.contents, s.nextOffset)
  }

  lemma ReopenedTakesOneInterval(format: Format, config: Config, s: LogSegment, t: LogSegment, base: nat, part: seq<Record>)
    requires Holds(format, config, s, base, part) && Holds(format, config, t, base, part)
    requires Clean(s) && JustOpened(t, Files(s.logFile, s.index.file), s.torn)
    ensures forall n: nat :: n <= config.indexInterval ==> t.Appendable(n)
  {
    s.index.ContentsAreEntries();
    ImageEmpty(format, t.records, t.torn);
  }

  /** What is on disk, and what is known of the last segment's files. */
  method ReadFiles(p: Partition) returns (dir: map<u64, Files>, last: u64, ghost tails: seq<seq<byte>>)
    requires p.Valid()
    ensures DirectoryHolds(p.format, dir, p.log, p.bases, p.parts, tails)
    ensures last == p.Last().baseOffset == p.bases[|p.bases| - 1] && last in dir
    ensures p.parts[|p.bases| - 1] == p.Last().records && tails[|p.bases| - 1] == p.Last().torn
    ensures dir[last] == Files(p.Last().logFile, p.Last().index.file)
  {
    dir := p.ReadDirectory();
    last := p.segments[|p.segments| - 1].baseOffset;
    tails := p.Tails();
    p.LastPart();
  }

  /** Reading the directory and opening what is in it. */
  method ReopenSame(p: Partition) returns (q: Partition)
    requires p.Valid()
    ensures fresh(q) && q.Valid() && |q.segments| > 0
    ensures q.log == p.log && q.bases == p.bases && q.parts == p.parts
    ensures q.topic == p.topic && q.partitionId == p.partitionId && q.config == p.config && q.format == p.format
    ensures JustOpened(q.Last(), Files(p.Last().logFile, p.Last().index.file), p.Last().torn)
  {
    var dir, last, tails := ReadFiles(p);
    var res := Partition.Open(p.format, p.topic, p.partitionId, p.config, dir, p.log, p.bases, p.parts, tails);
    q := res.value;
    ghost var n := |p.bases| - 1;
    assert JustOpened(q.segments[n], dir[p.bases[n]], tails[n]);
  }

  lemma ReopenedNext(p: Partition, q: Partition)
    requires p.Valid() && q.Valid() && q.log == p.log && q.bases == p.bases && q.parts == p.parts
    requires q.format == p.format && q.Last().torn == p.Last().torn
    ensures q.Last().nextOffset == p.Last().nextOffset
  {
    p.LastPart();
    q.LastPart();
  }

  /** Closing and reopening gives back the same log, the same segments, the same
      next offset and so the same fetches; and a clean last segment takes one
      index interval of further records before its reopened index would be
      written to. */
  method Reopen(p: Partition) returns (q: Partition)
    requires p.Valid()
    ensures fresh(q) && q.Valid()
    ensures q.log == p.log && q.bases == p.bases && q.parts == p.parts
    ensures q.topic == p.topic && q.partitionId == p.partitionId && q.config == p.config && q.format == p.format
    ensures q.Last().nextOffset == p.Last().nextOffset
    ensures Clean(p.Last()) ==> forall n: nat :: n <= p.config.indexInterval ==> q.Last().Appendable(n)
  {
    q := ReopenSame(p);
    ReopenedNext(p, q);
    if Clean(p.Last()) {
      ghost var n := |p.segments| - 1;
      OneHolds(p.format, p.config, p.segments, p.bases, p.parts, n);
      OneHolds(q.format, q.config, q.segments, q.bases, q.parts, n);
      ReopenedTakesOneInterval(p.format, p.config, p.Last(), q.Last(), p.bases[n], p.parts[n]);
    }
  }

  /** k is the number of whole records in the first n bytes. */
  ghost predicate WholeRecords(f: Format, rs: seq<Record>, n: nat, k: nat) {
    k <= |rs| && |f.image(rs[..k])| <= n && (k < |rs| ==> n < |f.image(rs[..k + 1])|)
  }

  /** Cutting a file anywhere leaves its whole records and a torn tail. */
  lemma {:induction false} CutImage(f: Format, rs: seq<Record>, n: nat) returns (k: nat, t: seq<byte>)
    requires f.Faithful() && AllStorable(f, rs) && n <= |f.image(rs)|
    ensures WholeRecords(f, rs, n, k)
    ensures f.image(rs)[..n] == f.image(rs[..k]) + t && f.Torn(t)
    ensures k == |rs| ==> t == []
  {
    ImageNil(f);
    if |rs| == 0 {
      k, t := 0, [];
      assert rs[..0] == [];
    } else {
      var front, last := rs[..|rs| - 1], rs[|rs| - 1];
      assert rs == front + [last];
      ImageSnoc(f, front, last);
      f.EncodedSize(last);
      if n == |f.image(rs)| {
        k, t := |rs|, [];
        assert rs[..k] == rs;
      } else if n < |f.image(front)| {
        k, t := CutImage(f, front, n);
        assert front[..k] == rs[..k];
        if k < |front| {
          assert front[..k + 1] == rs[..k + 1];
        } else {
          assert front[..k] == front;
        }
        assert f.image(rs)[..n] == f.image(front)[..n];
      } else {
        k, t := |front|, f.encode(last)[..n - |f.image(front)|];
        assert rs[..k] == front && rs[..k + 1] == rs;
        assert t == [] || f.TornFrom(t, last);
      }
    }
  }

  /** A cut that leaves nothing, or at least one whole record. Any other cut
      makes a reopened segment skip an offset. */
  ghost predicate CutIsSafe(f: Format, rs: seq<Record>, n: nat) {
    n == 0 || (|rs| > 0 && n >= |f.encode(rs[0])|)
  }

  /** The guard of a safe cut, by what the cut leaves. */
  lemma SafeCutLeaves(f: Format, rs: seq<Record>, n: nat, k: nat)
    requires f.Faithful() && WholeRecords(f, rs, n, k)
    ensures CutIsSafe(f, rs, n) <==> k > 0 || n == 0
  {
    if |rs| > 0 {
      ImageOne(f, rs[0]);
      assert rs[..1] == [rs[0]];
      if k > 0 {
        assert rs[..k][..1] == [rs[0]];
        ImageFrom(f, rs[..k], [], 1);
      }
    }
  }

  lemma CutTorn(f: Format, t: seq<byte>, m: nat)
    requires f.Torn(t) && m <= |t|
    ensures f.Torn(t[..m])
  {
    if t != [] {
      var r :| f.TornFrom(t, r);
      assert f.TornFrom(t[..m], r);
    }
  }

  /** The index of the whole file still serves the records before the cut. */
  lemma CutFiles(f: Format, files: Files, base: nat, rs: seq<Record>, tail: seq<byte>, n: nat) returns (k: nat, t: seq<byte>)
    requires f.Faithful() && FilesHold(f, files, base, rs, tail) && n <= |files.log|
    ensures WholeRecords(f, rs, n, k) && |f.image(rs[..k]) + t| == n
    ensures FilesHold(f, Files(files.log[..n], files.index), base, rs[..k], t)
  {
    if n <= |f.image(rs)| {
      k, t := CutImage(f, rs, n);
      assert files.log[..n] == f.image(rs)[..n];
    } else {
      k, t := |rs|, tail[..n - |f.image(rs)|];
      assert rs[..k] == rs && files.log[..n] == f.image(rs) + t;
      CutTorn(f, tail, n - |f.image(rs)|);
    }
    ImageEmpty(f, rs, tail);
    CutIndex(f, files.index, base, rs, k);
  }

  lemma CutIndex(f: Format, index: seq<byte>, base: nat, rs: seq<Record>, k: nat)
    requires k <= |rs| && IndexSound(f, OI.Entries(index, |index| / OI.ENTRY_SIZE), base, rs)
    ensures IndexSound(f, OI.Entries(index, |index| / OI.ENTRY_SIZE), base, rs[..k])
  {
    var es := OI.Entries(index, |index| / OI.ENTRY_SIZE);
    forall i | 0 <= i < |es| && es[i].offset <= base + k
      ensures es[i].position == Position(f, rs[..k], es[i].offset - base)
    {
      assert rs[..k][..es[i].offset - base] == rs[..es[i].offset - base];
    }
  }

  lemma PartCut(log: seq<Record>, bases: seq<nat>, parts: seq<seq<Record>>, k: nat, i: nat)
    requires Layout(log, bases, parts) && k <= |parts[|bases| - 1]| && i < |bases|
    ensures var z := |bases| - 1;
            bases[z] + k <= |log| && PartAt(log[..bases[z] + k], bases, parts[z := parts[z][..k]][i], i)
  {
    var z := |bases| - 1;
    assert PartAt(log, bases, parts[z], z) && PartAt(log, bases, parts[i], i);
    var kept := bases[z] + k;
    if i < z {
      assert bases[i + 1] <= bases[z];
      TakeThenSlice(log, kept, bases[i], bases[i + 1]);
    } else {
      TakeThenSlice(log, kept, bases[z], kept);
      assert parts[z][..k] == log[bases[z]..kept];
    }
  }

  lemma LayoutCut(log: seq<Record>, bases: seq<nat>, parts: seq<seq<Record>>, k: nat)
    requires Layout(log, bases, parts) && k <= |parts[|bases| - 1]|
    ensures bases[|bases| - 1] + k <= |log|
    ensures var z := |bases| - 1; Layout(log[..bases[z] + k], bases, parts[z := parts[z][..k]])
  {
    var z := |bases| - 1;
    PartCut(log, bases, parts, k, z);
    var log', parts' := log[..bases[z] + k], parts[z := parts[z][..k]];
    forall i | 0 <= i < |bases|
      ensures PartAt(log', bases, parts'[i], i)
    {
      PartCut(log, bases, parts, k, i);
    }
  }

  lemma TakeThenSlice<T>(s: seq<T>, n: nat, lo: nat, hi: nat)
    requires lo <= hi <= n <= |s|
    ensures s[..n][lo..hi] == s[lo..hi]
  {
  }

  /** Replacing the last segment's files touches no other segment. */
  lemma LastFilesReplaced(f: Format, dir: map<u64, Files>, log: seq<Record>, bases: seq<nat>, parts: seq<seq<Record>>,
                          tails: seq<seq<byte>>, last: u64, files: Files, log': seq<Record>, part: seq<Record>, tail: seq<byte>)
    requires DirectoryHolds(f, dir, log, bases, parts, tails) && last == bases[|bases| - 1]
    requires FlatLog(log') && Layout(log', bases, parts[|bases| - 1 := part])
    requires FilesHold(f, files, last, part, tail)
    ensures DirectoryHolds(f, dir[last := files], log', bases, parts[|bases| - 1 := part], tails[|bases| - 1 := tail])
  {
    FilesReplaced(f, dir, bases, parts, tails, last, files, part, tail);
  }

  lemma FilesReplaced(f: Format, dir: map<u64, Files>, bases: seq<nat>, parts: seq<seq<Record>>, tails: seq<seq<byte>>,
                      last: u64, files: Files, part: seq<Record>, tail: seq<byte>)
    requires |bases| == |parts| == |tails| > 0 && last == bases[|bases| - 1]
    requires forall i :: 0 <= i < |bases| ==> bases[i] in dir.Keys
    requires forall i :: 0 <= i < |bases| - 1 ==> bases[i] < last
    requires forall i {:trigger FilesHold(f, dir[bases[i]], bases[i], parts[i], tails[i])} :: 0 <= i < |bases| ==>
               FilesHold(f, dir[bases[i]], bases[i], parts[i], tails[i])
    requires FilesHold(f, files, last, part, tail)
    ensures forall i {:trigger FilesHold(f, dir[last := files][bases[i]], bases[i],
                                         parts[|bases| - 1 := part][i], tails[|bases| - 1 := tail][i])} ::
              0 <= i < |bases| ==>
                FilesHold(f, dir[last := files][bases[i]], bases[i], parts[|bases| - 1 := part][i], tails[|bases| - 1 := tail][i])
  {
    forall i | 0 <= i < |bases|
      ensures FilesHold(f, dir[last := files][bases[i]], bases[i], parts[|bases| - 1 := part][i], tails[|bases| - 1 := tail][i])
    {
      if i < |bases| - 1 {
        FilesElsewhere(f, dir, bases[i], parts[i], tails[i], last, files);
      }
    }
  }

  lemma FilesElsewhere(f: Format, dir: map<u64, Files>, base: u64, part: seq<Record>, tail: seq<byte>, last: u64, files: Files)
    requires base in dir && base != last && FilesHold(f, dir[base], base, part, tail)
    ensures FilesHold(f, dir[last := files][base], base, part, tail)
  {
  }

  /** A cut in the last file shortens the log to the records before it. */
  lemma CutDirectory(f: Format, dir: map<u64, Files>, log: seq<Record>, bases: seq<nat>, parts: seq<seq<Record>>,
                     tails: seq<seq<byte>>, last: u64, n: nat)
    returns (k: nat, parts': seq<seq<Record>>, tails': seq<seq<byte>>)
    requires f.Faithful() && DirectoryHolds(f, dir, log, bases, parts, tails)
    requires last == bases[|bases| - 1] && n <= |dir[last].log|
    ensures WholeRecords(f, parts[|bases| - 1], n, k) && last + k <= |log|
    ensures DirectoryHolds(f, dir[last := Files(dir[last].log[..n], dir[last].index)], log[..last + k], bases, parts', tails')
    ensures |parts'[|bases| - 1]| == k && |f.image(parts'[|bases| - 1]) + tails'[|bases| - 1]| == n
  {
    var z := |bases| - 1;
    assert FilesHold(f, dir[bases[z]], bases[z], parts[z], tails[z]);
    var tail;
    k, tail := CutFiles(f, dir[last], last, parts[z], tails[z], n);
    parts', tails' := parts[z := parts[z][..k]], tails[z := tail];
    LayoutCut(log, bases, parts, k);
    LastFilesReplaced(f, dir, log, bases, parts, tails, last, Files(dir[last].log[..n], dir[last].index),
                      log[..last + k], parts[z][..k], tail);
  }

  /** The directory after a crash cut the last log file to n bytes. */
  method CutLast(p: Partition, n: nat)
    returns (dir: map<u64, Files>, ghost kept: nat, ghost parts: seq<seq<Record>>, ghost tails: seq<seq<byte>>)
    requires p.Valid() && n <= |p.Last().logFile|
    ensures p.Last().baseOffset <= kept <= |p.log| && dir != map[]
    ensures WholeRecords(p.format, p.Last().records, n, kept - p.Last().baseOffset)
    ensures DirectoryHolds(p.format, dir, p.log[..kept], p.bases, parts, tails)
    ensures var z := |p.bases| - 1;
            |parts[z]| == kept - p.Last().baseOffset && |p.format.image(parts[z]) + tails[z]| == n
  {
    var last;
    dir, last, tails := ReadFiles(p);
    ghost var k;
    k, parts, tails := CutDirectory(p.format, dir, p.log, p.bases, p.parts, tails, last, n);
    kept := last + k;
    dir := dir[last := Files(dir[last].log[..n], dir[last].index)];
  }

  /** Whether the last segment of a reopened partition skips an offset. */
  lemma GaplessByLast(q: Partition, part: seq<Record>, tail: seq<byte>)
    requires q.Valid() && q.Last().torn == tail && q.parts[|q.bases| - 1] == part
    ensures q.Last().Gapless() <==> part != [] || |q.format.image(part) + tail| == 0
  {
    q.LastPart();
  }

  /** After a crash that cut the last log file anywhere, reopening yields
      exactly the records that were whole, so fetches return the surviving
      prefix; and the next offset follows the last of them if and only if the
      cut left at least one whole record, or nothing. */
  method ReopenAfterCut(p: Partition, n: nat) returns (q: Partition, ghost kept: nat)
    requires p.Valid() && n <= |p.Last().logFile|
    ensures p.Last().baseOffset <= kept <= |p.log|
    ensures WholeRecords(p.format, p.Last().records, n, kept - p.Last().baseOffset)
    ensures fresh(q) && q.Valid() && q.log == p.log[..kept] && q.bases == p.bases
    ensures q.topic == p.topic && q.partitionId == p.partitionId && q.config == p.config && q.format == p.format
    ensures q.Last().Gapless() <==> CutIsSafe(p.format, p.Last().records, n)
  {
    var dir;
    ghost var parts, tails;
    dir, kept, parts, tails := CutLast(p, n);
    var res := Partition.Open(p.format, p.topic, p.partitionId, p.config, dir, p.log[..kept], p.bases, parts, tails);
    q := res.value;
    SafeCutLeaves(p.format, p.Last().records, n, kept - p.Last().baseOffset);
    ghost var z := |p.bases| - 1;
    assert JustOpened(q.segments[z], dir[p.bases[z]], tails[z]);
    GaplessByLast(q, parts[z], tails[z]);
  }
}
