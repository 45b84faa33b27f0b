/** The record format as the rest of the storage engine uses it: four function
    values that are the functions of DiskRecord, and the laws they obey. Files
    are reasoned about through these laws; the byte layout stays behind them. */
module RecordFormat {
  import opened Bytes
  import opened DiskRecord

  /** A record that comes back from disk: exact for uncompressed records by
      DiskRecord.RoundTripExactly. */
  predicate Fits(env: Env, r: Record) {
    KeyFits(r) && BodyFits(env, r)
  }

  /** The bytes of records written back to back. */
  function Concatenation(encode: Record -> seq<byte>, rs: seq<Record>): seq<byte> {
    if |rs| == 0 then [] else Concatenation(encode, rs[..|rs| - 1]) + encode(rs[|rs| - 1])
  }

  datatype Format = Format(
    env: Env,
    encode: Record -> seq<byte>,
    parse: seq<byte> -> Result<(Record, seq<byte>), DecodeError>,
    storable: Record -> bool,
    image: seq<Record> -> seq<byte>)
  {
    ghost predicate Faithful() {
      && env.Lawful()
      && (forall r {:trigger Encoded(env, r)} :: encode(r) == Encoded(env, r))
      && (forall b {:trigger Parse(env, b)} :: parse(b) == Parse(env, b))
      && (forall r {:trigger Fits(env, r)} :: storable(r) == Fits(env, r))
      && (forall rs {:trigger Concatenation(encode, rs)} :: image(rs) == Concatenation(encode, rs))
    }

    /** A torn tail: empty, or the start of one storable record. */
    ghost predicate Torn(t: seq<byte>) {
      t == [] || exists r :: TornFrom(t, r)
    }

    ghost predicate TornFrom(t: seq<byte>, r: Record) {
      storable(r) && t < encode(r)
    }

    lemma RoundTrip(r: Record, rest: seq<byte>)
      requires Faithful() && storable(r)
      ensures parse(encode(r) + rest) == Ok((r, rest))
    {
      assert Fits(env, r);
      RecordRoundTrip(env, r, rest);
      assert encode(r) == Encoded(env, r);
      assert parse(Encoded(env, r) + rest) == Parse(env, Encoded(env, r) + rest);
    }

    lemma EncodedSize(r: Record)
      requires Faithful()
      ensures |encode(r)| > 16
    {
      assert encode(r) == Encoded(env, r);
    }

    lemma TornFails(t: seq<byte>)
      requires Faithful() && Torn(t)
      ensures parse(t) == Err(ReadFailed)
    {
      assert parse(t) == Parse(env, t);
      if t != [] {
        var r :| TornFrom(t, r);
        assert Fits(env, r) && encode(r) == Encoded(env, r);
        TornRecordFails(env, r, t);
      }
    }

    lemma ParseShrinks(b: seq<byte>)
      requires Faithful()
      ensures parse(b).Ok? ==> |parse(b).value.1| < |b|
    {
      assert parse(b) == Parse(env, b);
    }

    /** One call of encode. */
    method Write(r: Record) returns (b: seq<byte>)
      requires Faithful()
      ensures b == encode(r)
    {
      b := Encode(env, r);
    }

    /** One call of decode on a reader standing before `rest`. */
    method Read(reader: Cursor) returns (res: Result<Record, DecodeError>)
      requires Faithful() && reader.Valid()
      modifies reader
      ensures reader.Valid()
      ensures match parse(old(reader.Rest()))
              case Ok(p) => res == Ok(p.0) && reader.Rest() == p.1
              case Err(e) => res == Err(e)
    {
      ghost var before := reader.Rest();
      assert parse(before) == Parse(env, before);
      res := Decode(env, reader);
    }
  }

  function FormatOf(env: Env): Format {
    Format(env, r => Encoded(env, r), b => Parse(env, b), r => Fits(env, r),
           rs => Concatenation(r => Encoded(env, r), rs))
  }

  lemma FormatOfFaithful(env: Env)
    requires env.Lawful()
    ensures FormatOf(env).Faithful()
  {
  }
}
