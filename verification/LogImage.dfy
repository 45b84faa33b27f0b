/** The bytes of a whole log file, as a value: records back to back, possibly
    followed by the torn start of one more. */
module LogImage {
  import opened Bytes
  import opened DiskRecord
  import opened RecordFormat

  ghost predicate AllStorable(f: Format, rs: seq<Record>) {
    forall i :: 0 <= i < |rs| ==> f.storable(rs[i])
  }

  /** The byte at which record k starts (or, for k == |rs|, the end). */
  function Position(f: Format, rs: seq<Record>, k: nat): nat
    requires k <= |rs|
  {
    |f.image(rs[..k])|
  }

  lemma ImageNil(f: Format)
    requires f.Faithful()
    ensures f.image([]) == []
  {
    assert f.image([]) == Concatenation(f.encode, []);
  }

  lemma ImageSnoc(f: Format, rs: seq<Record>, r: Record)
    requires f.Faithful()
    ensures f.image(rs + [r]) == f.image(rs) + f.encode(r)
  {
    assert f.image(rs) == Concatenation(f.encode, rs);
    assert f.image(rs + [r]) == Concatenation(f.encode, rs + [r]);
    assert (rs + [r])[..|rs + [r]| - 1] == rs;
  }

  lemma {:induction false} ImageConcat(f: Format, a: seq<Record>, b: seq<Record>)
    requires f.Faithful()
    ensures f.image(a + b) == f.image(a) + f.image(b)
  {
    if |b| == 0 {
      ImageNil(f);
      assert a + b == a;
    } else {
      var front, last := b[..|b| - 1], b[|b| - 1];
      ImageConcat(f, a, front);
      ImageSnoc(f, front, last);
      ImageSnoc(f, a + front, last);
      assert b == front + [last];
      assert a + b == a + front + [last];
    }
  }

  lemma ImageOne(f: Format, r: Record)
    requires f.Faithful()
    ensures f.image([r]) == f.encode(r)
  {
    ImageNil(f);
    ImageSnoc(f, [], r);
    assert [] + [r] == [r];
  }

  lemma DropFront(a: seq<byte>, b: seq<byte>, c: seq<byte>)
    ensures |a| <= |a + b + c| && (a + b + c)[|a|..] == b + c
  {
  }

  /** A reader that starts at the position of record k sees records k, k + 1, ... */
  lemma ImageFrom(f: Format, rs: seq<Record>, tail: seq<byte>, k: nat)
    requires f.Faithful() && k <= |rs|
    ensures f.image(rs) == f.image(rs[..k]) + f.image(rs[k..])
    ensures Position(f, rs, k) <= |f.image(rs) + tail|
    ensures (f.image(rs) + tail)[Position(f, rs, k)..] == f.image(rs[k..]) + tail
  {
    var front, back := rs[..k], rs[k..];
    assert rs == front + back;
    ImageConcat(f, front, back);
    DropFront(f.image(front), f.image(back), tail);
  }

  /** Adding records moves no earlier record. */
  lemma PositionStable(f: Format, rs: seq<Record>, more: seq<Record>, k: nat)
    requires k <= |rs|
    ensures Position(f, rs + more, k) == Position(f, rs, k)
  {
    assert (rs + more)[..k] == rs[..k];
  }

  lemma ImageEmpty(f: Format, rs: seq<Record>, tail: seq<byte>)
    requires f.Faithful()
    ensures f.image(rs) + tail == [] <==> rs == [] && tail == []
  {
    if rs == [] {
      ImageNil(f);
    } else {
      var front, last := rs[..|rs| - 1], rs[|rs| - 1];
      assert rs == front + [last];
      ImageSnoc(f, front, last);
      f.EncodedSize(last);
    }
  }

  /** What a reader standing at record k of a file sees next. */
  lemma NextRecord(f: Format, rs: seq<Record>, tail: seq<byte>, k: nat)
    requires f.Faithful() && AllStorable(f, rs) && f.Torn(tail) && k <= |rs|
    ensures k < |rs| ==>
              f.parse(f.image(rs[k..]) + tail) == Ok((rs[k], f.image(rs[k + 1..]) + tail))
    ensures k == |rs| ==> f.parse(f.image(rs[k..]) + tail) == Err(ReadFailed)
  {
    if k < |rs| {
      var rest := f.image(rs[k + 1..]);
      ImageConcat(f, [rs[k]], rs[k + 1..]);
      assert rs[k..] == [rs[k]] + rs[k + 1..];
      ImageOne(f, rs[k]);
      f.RoundTrip(rs[k], rest + tail);
      assert f.image(rs[k..]) + tail == f.encode(rs[k]) + (rest + tail);
    } else {
      f.TornFails(tail);
      ImageNil(f);
      assert rs[k..] == [] && [] + tail == tail;
    }
  }

  /** Decode until it fails: every whole record at the front, and the rest. */
  ghost function ParseAll(f: Format, b: seq<byte>): (seq<Record>, seq<byte>)
    requires f.Faithful()
    decreases |b|
  {
    f.ParseShrinks(b);
    match f.parse(b)
    case Ok(p) => var (rs, rest) := ParseAll(f, p.1); ([p.0] + rs, rest)
    case Err(_) => ([], b)
  }

  /** Decoding a concatenation of encodings yields exactly those records and
      stops exactly at the torn tail. */
  lemma {:induction false} ParseAllOfImage(f: Format, rs: seq<Record>, tail: seq<byte>)
    requires f.Faithful() && AllStorable(f, rs) && f.Torn(tail)
    ensures ParseAll(f, f.image(rs) + tail) == (rs, tail)
  {
    NextRecord(f, rs, tail, 0);
    assert rs[0..] == rs;
    if |rs| > 0 {
      ParseAllOfImage(f, rs[1..], tail);
      assert [rs[0]] + rs[1..] == rs;
    } else {
      ImageNil(f);
      assert f.image(rs) + tail == tail;
    }
  }

  /** So the bytes determine the records: no two logs share a file. */
  lemma ImageInjective(f: Format, rs: seq<Record>, t: seq<byte>, rs': seq<Record>, t': seq<byte>)
    requires f.Faithful() && AllStorable(f, rs) && AllStorable(f, rs') && f.Torn(t) && f.Torn(t')
    requires f.image(rs) + t == f.image(rs') + t'
    ensures rs == rs' && t == t'
  {
    ParseAllOfImage(f, rs, t);
    ParseAllOfImage(f, rs', t');
  }
}
