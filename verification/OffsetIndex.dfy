/** The sparse offset index: storage/src/index.rs. */
module OffsetIndex {
  import opened Bytes

  const ENTRY_SIZE: nat := 16

  /** An (offset, byte position) pair. */
  datatype Entry = Entry(offset: u64, position: u64)

  function EntryBytes(e: Entry): (b: seq<byte>)
    ensures |b| == ENTRY_SIZE
  {
    U64Bytes(e.offset) + U64Bytes(e.position)
  }

  function EntryAt(file: seq<byte>, i: nat): Entry
    requires (i + 1) * ENTRY_SIZE <= |file|
  {
    var p := i * ENTRY_SIZE;
    Entry(ReadU64(file[p..p + 8]), ReadU64(file[p + 8..p + 16]))
  }

  function Entries(file: seq<byte>, size: nat): (es: seq<Entry>)
    requires size * ENTRY_SIZE <= |file|
    ensures |es| == size
  {
    seq(size, i requires 0 <= i < size => EntryAt(file, i))
  }

  /** write_all at a file cursor: overwrites, and extends past the end. */
  function Overwrite(file: seq<byte>, at: nat, b: seq<byte>): seq<byte>
    requires at <= |file|
  {
    file[..at] + b + if at + |b| <= |file| then file[at + |b|..] else []
  }

  ghost predicate Sorted(es: seq<Entry>) {
    forall i, j :: 0 <= i < j < |es| ==> es[i].offset < es[j].offset
  }

  /** p is the position stored with the largest offset not above target. */
  ghost predicate IsFloor(es: seq<Entry>, target: nat, p: Option<nat>) {
    match p
    case None => forall i :: 0 <= i < |es| ==> es[i].offset > target
    case Some(pos) =>
      exists k :: 0 <= k < |es| && es[k].position == pos && es[k].offset <= target
                  && forall i :: k < i < |es| ==> es[i].offset > target
  }

  lemma EntryRoundTrip(prefix: seq<byte>, e: Entry, i: nat)
    requires |prefix| == i * ENTRY_SIZE
    ensures EntryAt(prefix + EntryBytes(e), i) == e
  {
    var file := prefix + EntryBytes(e);
    var p := i * ENTRY_SIZE;
    assert file[p..p + 8] == U64Bytes(e.offset);
    assert file[p + 8..p + 16] == U64Bytes(e.position);
  }

  /** Entry i lies at byte 16 * i, its offset first and its position behind it;
      for the order of their bytes see Bytes.U64BytesOf. */
  lemma EntryLayout(file: seq<byte>, i: nat)
    requires (i + 1) * 16 <= |file|
    ensures file[16 * i..16 * i + 8] == U64Bytes(EntryAt(file, i).offset)
    ensures file[16 * i + 8..16 * i + 16] == U64Bytes(EntryAt(file, i).position)
  {
    U64BytesOf(file[16 * i..16 * i + 8]);
    U64BytesOf(file[16 * i + 8..16 * i + 16]);
  }

  lemma EntryAtPrefix(prefix: seq<byte>, more: seq<byte>, i: nat)
    requires (i + 1) * ENTRY_SIZE <= |prefix|
    ensures EntryAt(prefix + more, i) == EntryAt(prefix, i)
  {
    var p := i * ENTRY_SIZE;
    assert (prefix + more)[p..p + 8] == prefix[p..p + 8];
    assert (prefix + more)[p + 8..p + 16] == prefix[p + 8..p + 16];
  }

  /** Writing behind the last whole entry adds exactly that entry, also over
      the beginning of a partial one. */
  lemma EntriesAppend(file: seq<byte>, size: nat, e: Entry)
    requires size * ENTRY_SIZE <= |file| < (size + 1) * ENTRY_SIZE
    ensures |Overwrite(file, size * ENTRY_SIZE, EntryBytes(e))| == (size + 1) * ENTRY_SIZE
    ensures Entries(Overwrite(file, size * ENTRY_SIZE, EntryBytes(e)), size + 1) == Entries(file, size) + [e]
  {
    var whole := file[..size * ENTRY_SIZE];
    assert Overwrite(file, size * ENTRY_SIZE, EntryBytes(e)) == whole + EntryBytes(e);
    assert file == whole + file[size * ENTRY_SIZE..];
    EntryRoundTrip(whole, e, size);
    forall i | 0 <= i < size
      ensures EntryAt(whole + EntryBytes(e), i) == EntryAt(file, i)
    {
      EntryAtPrefix(whole, EntryBytes(e), i);
      EntryAtPrefix(whole, file[size * ENTRY_SIZE..], i);
    }
  }

  class OffsetIndex {
    var file: seq<byte>
    var cursor: nat
    var mmap: Option<seq<byte>>
    var size: nat

    /** The entries counted by size, as values. */
    ghost var contents: seq<Entry>

    /** The index counts exactly the whole entries of the mapped file. */
    ghost predicate Consistent()
      reads this
    {
      && size == |file| / ENTRY_SIZE
      && cursor <= |file| && cursor % ENTRY_SIZE == 0
      && mmap == (if |file| > 0 then Some(file) else None)
      && |contents| == size
      && (forall i {:trigger EntryAt(file, i)} :: 0 <= i < size ==> EntryAt(file, i) == contents[i])
    }

    lemma ContentsAreEntries()
      requires Consistent()
      ensures contents == Entries(file, |file| / ENTRY_SIZE)
    {
      forall i | 0 <= i < size
        ensures EntryAt(file, i) == contents[i]
      {
      }
    }

    /** The next write lands after the last counted entry. */
    predicate AtEnd()
      reads this
    {
      cursor == size * ENTRY_SIZE
    }

    /** OffsetIndex::create on a path that does not exist yet. */
    constructor Create()
      ensures Consistent() && AtEnd() && contents == [] && file == []
    {
      file, cursor, mmap, size := [], 0, None, 0;
      contents := [];
    }

    /** OffsetIndex::open: the file is mapped, but its cursor stays at 0. */
    constructor Open(bytes: seq<byte>)
      ensures Consistent() && file == bytes && cursor == 0
      ensures size == |bytes| / ENTRY_SIZE && contents == Entries(bytes, |bytes| / ENTRY_SIZE)
    {
      file, cursor := bytes, 0;
      size := |bytes| / ENTRY_SIZE;
      mmap := if |bytes| > 0 then Some(bytes) else None;
      contents := Entries(bytes, |bytes| / ENTRY_SIZE);
    }

    /** Adds an entry when the cursor is behind the last one. Anywhere else the
        write lands on old entries while the count grows past the file, so a
        consistent index stays consistent if and only if the cursor was there. */
    method Append(offset: u64, position: u64)
      requires cursor <= |file|
      modifies this
      ensures contents == old(contents) + [Entry(offset, position)]
      ensures file == Overwrite(old(file), old(cursor), EntryBytes(Entry(offset, position)))
      ensures size == old(size) + 1 && cursor == old(cursor) + ENTRY_SIZE <= |file| && mmap == Some(file)
      ensures old(Consistent()) ==> (Consistent() <==> old(AtEnd()))
      ensures AtEnd() == old(AtEnd())
    {
      var entry := U64Bytes(offset) + U64Bytes(position);
      ghost var before := file;
      file := Overwrite(file, cursor, entry);
      cursor := cursor + ENTRY_SIZE;
      size := size + 1;
      contents := contents + [Entry(offset, position)];
      Remap();
      if old(Consistent() && AtEnd()) {
        EntriesAppend(before, old(size), Entry(offset, position));
        assert Entries(before, old(size)) == old(contents);
      }
    }

    method Remap()
      modifies this`mmap
      ensures mmap == if |file| > 0 then Some(file) else old(mmap)
    {
      if |file| > 0 {
        mmap := Some(file);
      }
    }

    /** Bisection for the largest offset not above the target. */
    method Lookup(target: nat) returns (position: Option<nat>)
      requires Consistent() && Sorted(contents)
      ensures IsFloor(contents, target, position)
    {
      if size == 0 {
        return None;
      }
      var bytes := mmap.value;
      var left, right := 0, size;
      position := None;
      while left < right
        invariant 0 <= left <= right <= size
        invariant forall i :: right <= i < size ==> contents[i].offset > target
        invariant left == 0 ==> position == None
        invariant left > 0 ==> contents[left - 1].offset <= target
        invariant left > 0 ==> position == Some(contents[left - 1].position)
      {
        var mid := (left + right) / 2;
        var entry := EntryAt(bytes, mid);
        assert entry == contents[mid];
        if entry.offset <= target {
          position := Some(entry.position);
          left := mid + 1;
        } else {
          right := mid;
        }
      }
    }
  }
}
