/** The on-disk record: storage/src/record.rs.

    A record is laid out as offset (8) | length (4) | crc (4) | body, where the
    body is compression (1) | timestamp (8) | key length (4) | key |
    value length (4) | value. All integers are big-endian. */
module DiskRecord {
  import opened Bytes

  datatype Compression = Uncompressed | Gzip | Snappy | Lz4

  datatype Message = Message(key: Option<seq<byte>>, value: seq<byte>, timestamp: u64)

  datatype Record = Record(
    offset: u64, timestamp: u64, key: Option<seq<byte>>, value: seq<byte>, compression: Compression)
  {
    function ToMessage(): Message {
      Message(key, value, timestamp)
    }
  }

  /** What the library code behind the format does: an arbitrary checksum and
      one arbitrary codec for each compression type other than Uncompressed. */
  datatype Env = Env(
    crc: seq<byte> -> u32,
    pack: (Compression, seq<byte>) -> seq<byte>,
    unpack: (Compression, seq<byte>) -> Option<seq<byte>>)
  {
    /** The codecs are inverse pairs; nothing is assumed about the checksum. */
    ghost predicate Lawful() {
      forall c, v :: unpack(c, pack(c, v)) == Some(v)
    }

    function Compress(c: Compression, v: seq<byte>): seq<byte> {
      if c.Uncompressed? then v else pack(c, v)
    }

    function Decompress(c: Compression, v: seq<byte>): Option<seq<byte>> {
      if c.Uncompressed? then Some(v) else unpack(c, v)
    }
  }

  /** LengthUnderflow is the panic of the unchecked `length - 4`; the other
      three are the errors decode returns. */
  datatype DecodeError = ReadFailed | Corruption | UnknownCompression | BadCompressedData | LengthUnderflow

  // ---------------------------------------------------------------- encoding

  function CompressionCode(c: Compression): byte {
    match c
    case Uncompressed => 0
    case Gzip => 1
    case Snappy => 2
    case Lz4 => 3
  }

  function CompressionFromCode(b: byte): Result<Compression, DecodeError> {
    if b == 0 then Ok(Uncompressed)
    else if b == 1 then Ok(Gzip)
    else if b == 2 then Ok(Snappy)
    else if b == 3 then Ok(Lz4)
    else Err(UnknownCompression)
  }

  /** The key length is cast to i32, so a key of 2^31 bytes or more is written
      with a negative length; -1 stands for "no key". */
  function KeyField(key: Option<seq<byte>>): seq<byte> {
    match key
    case Some(k) => U32Bytes(AsU32(|k|)) + k
    case None => U32Bytes(TWO_32 - 1)
  }

  function ValueField(packed: seq<byte>): seq<byte> {
    U32Bytes(AsU32(|packed|)) + packed
  }

  function Body(env: Env, r: Record): seq<byte> {
    [CompressionCode(r.compression)]
    + (U64Bytes(r.timestamp) + (KeyField(r.key) + ValueField(env.Compress(r.compression, r.value))))
  }

  /** The four fields of a record in file order. */
  function Frame(off: seq<byte>, len: seq<byte>, crc: seq<byte>, body: seq<byte>): seq<byte> {
    off + (len + (crc + body))
  }

  function Encoded(env: Env, r: Record): seq<byte> {
    Frame(U64Bytes(r.offset), U32Bytes(AsU32(4 + |Body(env, r)|)),
          U32Bytes(env.crc(Body(env, r))), Body(env, r))
  }

  lemma BodyAssociates(a: seq<byte>, b: seq<byte>, c: seq<byte>, d: seq<byte>)
    ensures a + b + c + d == a + (b + (c + d))
  {
  }

  lemma FrameAssociates(off: seq<byte>, len: seq<byte>, crc: seq<byte>, body: seq<byte>)
    ensures off + len + crc + body == Frame(off, len, crc, body)
  {
  }

  /** DiskRecord::encode grows two byte buffers. */
  method Encode(env: Env, r: Record) returns (buffer: seq<byte>)
    ensures buffer == Encoded(env, r)
  {
    var valueData := env.Compress(r.compression, r.value);
    var bodySize := 4 + 1 + 8 + 4;
    if r.key.Some? {
      bodySize := bodySize + |r.key.value|;
    }
    bodySize := bodySize + 4;
    bodySize := bodySize + |valueData|;

    buffer := U64Bytes(r.offset);
    buffer := buffer + U32Bytes(AsU32(bodySize));

    var data: seq<byte> := [CompressionCode(r.compression)];
    data := data + U64Bytes(r.timestamp);
    ghost var head := data;
    if r.key.Some? {
      data := data + U32Bytes(AsU32(|r.key.value|));
      data := data + r.key.value;
    } else {
      data := data + U32Bytes(TWO_32 - 1);
    }
    assert data == head + KeyField(r.key);
    head := data;
    data := data + U32Bytes(AsU32(|valueData|));
    data := data + valueData;
    assert data == head + ValueField(valueData);
    assert data == Body(env, r) by {
      BodyAssociates([CompressionCode(r.compression)], U64Bytes(r.timestamp), KeyField(r.key), ValueField(valueData));
    }
    assert bodySize == 4 + |data|;
    FrameAssociates(U64Bytes(r.offset), U32Bytes(AsU32(bodySize)), U32Bytes(env.crc(data)), data);

    buffer := buffer + U32Bytes(env.crc(data));
    buffer := buffer + data;
  }

  // ---------------------------------------------------------------- decoding

  /** read_exact: the next n bytes and what is left, or a failure. */
  function Take(n: nat, b: seq<byte>): Result<(seq<byte>, seq<byte>), DecodeError> {
    if |b| < n then Err(ReadFailed) else Ok((b[..n], b[n..]))
  }

  lemma TakeFront(a: seq<byte>, b: seq<byte>)
    ensures Take(|a|, a + b) == Ok((a, b))
  {
    assert (a + b)[..|a|] == a;
    assert (a + b)[|a|..] == b;
  }

  function ParseKey(d: seq<byte>): Result<(Option<seq<byte>>, seq<byte>), DecodeError> {
    var (len, d1) :- Take(4, d);
    if ReadI32(len) < 0 then Ok((None, d1))
    else
      var (k, d2) :- Take(ReadI32(len), d1);
      Ok((Some(k), d2))
  }

  function ParseValue(d: seq<byte>): Result<(seq<byte>, seq<byte>), DecodeError> {
    var (len, d1) :- Take(4, d);
    Take(ReadU32(len), d1)
  }

  function ParseBody(env: Env, offset: u64, d: seq<byte>): Result<Record, DecodeError> {
    var (code, d1) :- Take(1, d);
    var compression :- CompressionFromCode(code[0]);
    var (ts, d2) :- Take(8, d1);
    var (key, d3) :- ParseKey(d2);
    var (packed, _) :- ParseValue(d3);
    match env.Decompress(compression, packed)
    case Some(value) => Ok(Record(offset, ReadU64(ts), key, value, compression))
    case None => Err(BadCompressedData)
  }

  /** One record off the front of b, and the bytes after it. */
  function Parse(env: Env, b: seq<byte>): (res: Result<(Record, seq<byte>), DecodeError>)
    ensures res.Ok? ==> |res.value.1| < |b| && res.value.1 == b[|b| - |res.value.1|..]
  {
    var (offset, b1) :- Take(8, b);
    var (len, b2) :- Take(4, b1);
    var (crc, b3) :- Take(4, b2);
    if ReadU32(len) < 4 then Err(LengthUnderflow)
    else
      var (data, b4) :- Take(ReadU32(len) - 4, b3);
      if env.crc(data) != ReadU32(crc) then Err(Corruption)
      else
        var r :- ParseBody(env, ReadU64(offset), data);
        Ok((r, b4))
  }

  /** std::io::Cursor over a byte slice. */
  class Cursor {
    const data: seq<byte>
    var pos: nat

    ghost predicate Valid()
      reads this
    {
      pos <= |data|
    }

    ghost function Rest(): seq<byte>
      reads this
      requires Valid()
    {
      data[pos..]
    }

    constructor (data: seq<byte>)
      ensures Valid() && this.data == data && pos == 0 && Rest() == data
    {
      this.data := data;
      pos := 0;
    }

    method ReadExact(n: nat) returns (res: Result<seq<byte>, DecodeError>)
      requires Valid()
      modifies this
      ensures Valid()
      ensures res.Ok? <==> Take(n, old(Rest())).Ok?
      ensures res.Ok? ==> Take(n, old(Rest())) == Ok((res.value, Rest()))
      ensures res.Err? ==> res.error == ReadFailed && pos == old(pos)
    {
      if |data| - pos < n {
        return Err(ReadFailed);
      }
      assert data[pos..][..n] == data[pos..pos + n] && data[pos..][n..] == data[pos + n..];
      res := Ok(data[pos..pos + n]);
      pos := pos + n;
    }
  }

  /** The value of a decode is a function of the bytes left in the reader; where
      an error leaves the reader is not specified, as no caller reads on. */
  ghost predicate DecodesTo(env: Env, before: seq<byte>, after: seq<byte>, res: Result<Record, DecodeError>) {
    match Parse(env, before)
    case Ok(p) => res == Ok(p.0) && after == p.1
    case Err(e) => res == Err(e)
  }

  method DecodeBody(env: Env, offset: u64, data: seq<byte>) returns (res: Result<Record, DecodeError>)
    ensures res == ParseBody(env, offset, data)
  {
    var cursor := new Cursor(data);
    var code :- cursor.ReadExact(1);
    var compression :- CompressionFromCode(code[0]);
    var ts :- cursor.ReadExact(8);
    var timestamp := ReadU64(ts);
    var keyLenBytes :- cursor.ReadExact(4);
    var keyLen := ReadI32(keyLenBytes);
    var key: Option<seq<byte>> := None;
    if keyLen >= 0 {
      var keyData :- cursor.ReadExact(keyLen);
      key := Some(keyData);
    }
    var valueLenBytes :- cursor.ReadExact(4);
    var valueData :- cursor.ReadExact(ReadU32(valueLenBytes));
    match env.Decompress(compression, valueData)
    case Some(value) => res := Ok(Record(offset, timestamp, key, value, compression));
    case None => res := Err(BadCompressedData);
  }

  /** DiskRecord::decode. */
  method Decode(env: Env, reader: Cursor) returns (res: Result<Record, DecodeError>)
    requires reader.Valid()
    modifies reader
    ensures reader.Valid()
    ensures DecodesTo(env, old(reader.Rest()), reader.Rest(), res)
  {
    var offsetBytes :- reader.ReadExact(8);
    var lengthBytes :- reader.ReadExact(4);
    var crcBytes :- reader.ReadExact(4);
    var length := ReadU32(lengthBytes);
    if length < 4 {
      return Err(LengthUnderflow);
    }
    var data :- reader.ReadExact(length - 4);
    if env.crc(data) != ReadU32(crcBytes) {
      return Err(Corruption);
    }
    res := DecodeBody(env, ReadU64(offsetBytes), data);
  }

  // ------------------------------------------------------------ round trips

  predicate KeyFits(r: Record) {
    r.key.Some? ==> |r.key.value| < TWO_31
  }

  predicate BodyFits(env: Env, r: Record) {
    4 + |Body(env, r)| < TWO_32
  }

  lemma KeyRoundTrip(key: Option<seq<byte>>, rest: seq<byte>)
    requires key.Some? ==> |key.value| < TWO_32
    ensures var read := ParseKey(KeyField(key) + rest);
            if key.Some? && |key.value| >= TWO_31
            then read == Ok((None, key.value + rest))
            else read == Ok((key, rest))
  {
    match key
    case Some(k) =>
      var len := U32Bytes(AsU32(|k|));
      assert KeyField(key) + rest == len + (k + rest);
      TakeFront(len, k + rest);
      TakeFront(k, rest);
    case None =>
      TakeFront(U32Bytes(TWO_32 - 1), rest);
  }

  lemma ValueRoundTrip(packed: seq<byte>)
    requires |packed| < TWO_32
    ensures ParseValue(ValueField(packed)) == Ok((packed, []))
  {
    var len := U32Bytes(AsU32(|packed|));
    TakeFront(len, packed);
    assert packed + [] == packed;
    TakeFront(packed, []);
  }

  lemma ParseBodyParts(env: Env, offset: u64, code: byte, ts: seq<byte>, d3: seq<byte>)
    requires |ts| == 8 && CompressionFromCode(code).Ok? && ParseKey(d3).Ok? && ParseValue(ParseKey(d3).value.1).Ok?
    ensures var packed := ParseValue(ParseKey(d3).value.1).value.0;
            var c := CompressionFromCode(code).value;
            ParseBody(env, offset, [code] + (ts + d3))
            == match env.Decompress(c, packed)
               case Some(v) => Ok(Record(offset, ReadU64(ts), ParseKey(d3).value.0, v, c))
               case None => Err(BadCompressedData)
  {
    TakeFront([code], ts + d3);
    TakeFront(ts, d3);
  }

  /** Reading a body back gives the record. */
  lemma BodyRoundTrip(env: Env, r: Record)
    requires env.Lawful() && KeyFits(r) && BodyFits(env, r)
    ensures ParseBody(env, r.offset, Body(env, r)) == Ok(r)
  {
    var packed := env.Compress(r.compression, r.value);
    var ts, key, value := U64Bytes(r.timestamp), KeyField(r.key), ValueField(packed);
    assert Body(env, r) == [CompressionCode(r.compression)] + (ts + (key + value));
    assert ParseKey(key + value) == Ok((r.key, value)) by {
      KeyRoundTrip(r.key, value);
    }
    assert ParseValue(value) == Ok((packed, [])) by {
      ValueRoundTrip(packed);
    }
    ParseBodyParts(env, r.offset, CompressionCode(r.compression), ts, key + value);
  }

  lemma ParseFrame(env: Env, off: seq<byte>, len: seq<byte>, crc: seq<byte>, body: seq<byte>, rest: seq<byte>, r: Record)
    requires |off| == 8 && |len| == 4 && |crc| == 4
    requires ReadU32(len) == 4 + |body| && ReadU32(crc) == env.crc(body)
    requires ParseBody(env, ReadU64(off), body) == Ok(r)
    ensures Parse(env, Frame(off, len, crc, body) + rest) == Ok((r, rest))
  {
    assert Frame(off, len, crc, body) + rest == off + (len + (crc + (body + rest)));
    TakeFront(off, len + (crc + (body + rest)));
    TakeFront(len, crc + (body + rest));
    TakeFront(crc, body + rest);
    TakeFront(body, rest);
  }

  /** The parts of an encoding, and what decode makes of each. */
  lemma EncodedParts(env: Env, r: Record) returns (off: seq<byte>, len: seq<byte>, crc: seq<byte>, body: seq<byte>)
    requires BodyFits(env, r)
    ensures Encoded(env, r) == Frame(off, len, crc, body)
    ensures |off| == 8 && |len| == 4 && |crc| == 4
    ensures ReadU64(off) == r.offset && ReadU32(len) == 4 + |body| && ReadU32(crc) == env.crc(body)
    ensures body == Body(env, r)
  {
    body := Body(env, r);
    off, len, crc := U64Bytes(r.offset), U32Bytes(AsU32(4 + |body|)), U32Bytes(env.crc(body));
  }

  /** Decoding undoes encoding and consumes exactly the encoded bytes. */
  lemma RecordRoundTrip(env: Env, r: Record, rest: seq<byte>)
    requires env.Lawful() && KeyFits(r) && BodyFits(env, r)
    ensures Parse(env, Encoded(env, r) + rest) == Ok((r, rest))
  {
    BodyRoundTrip(env, r);
    var off, len, crc, body := EncodedParts(env, r);
    ParseFrame(env, off, len, crc, body, rest, r);
  }

  lemma ParsedKeySize(d: seq<byte>)
    requires ParseKey(d).Ok?
    ensures var (key, rest) := ParseKey(d).value;
            |KeyField(key)| + |rest| == |d| && (key.Some? ==> |key.value| < TWO_31)
  {
  }

  lemma ParsedBodySize(env: Env, offset: u64, d: seq<byte>)
    requires ParseBody(env, offset, d).Ok? && ParseBody(env, offset, d).value.compression.Uncompressed?
    ensures var r := ParseBody(env, offset, d).value; KeyFits(r) && |Body(env, r)| <= |d|
  {
    var d2 := d[1..][8..];
    ParsedKeySize(d2);
  }

  /** A record that decode returns never overflows the length fields it was
      read under. */
  lemma ParsedIsSmall(env: Env, b: seq<byte>)
    requires Parse(env, b).Ok? && Parse(env, b).value.0.compression.Uncompressed?
    ensures KeyFits(Parse(env, b).value.0) && BodyFits(env, Parse(env, b).value.0)
  {
    var len := ReadU32(b[8..][..4]);
    var data := b[8..][4..][4..][..len - 4];
    ParsedBodySize(env, ReadU64(b[..8]), data);
  }

  /** For uncompressed records the bounds are exact: a record survives the
      disk if and only if its key is below 2^31 bytes and its body below 2^32. */
  lemma RoundTripExactly(env: Env, r: Record, rest: seq<byte>)
    requires env.Lawful() && r.compression.Uncompressed?
    ensures Parse(env, Encoded(env, r) + rest) == Ok((r, rest)) <==> KeyFits(r) && BodyFits(env, r)
  {
    if KeyFits(r) && BodyFits(env, r) {
      RecordRoundTrip(env, r, rest);
    } else if Parse(env, Encoded(env, r) + rest) == Ok((r, rest)) {
      ParsedIsSmall(env, Encoded(env, r) + rest);
      assert false;
    }
  }

  /** serialized_size, which counts the value as it is before compression. */
  function SerializedSize(r: Record): nat {
    8 + 4 + 4 + 1 + 8 + 4 + (if r.key.Some? then |r.key.value| else 0) + 4 + |r.value|
  }

  /** It is the size on disk exactly when packing keeps the value's length: so
      for every uncompressed record. */
  lemma SerializedSizeIsExact(env: Env, r: Record)
    ensures |Encoded(env, r)| == SerializedSize(r) <==> |env.Compress(r.compression, r.value)| == |r.value|
    ensures r.compression.Uncompressed? ==> |Encoded(env, r)| == SerializedSize(r)
  {
    var packed := env.Compress(r.compression, r.value);
    assert |Body(env, r)| == 1 + 8 + |KeyField(r.key)| + |ValueField(packed)|;
  }

  /** The first sixteen bytes of an encoding: the offset, a length that counts
      everything from the checksum on, and the checksum of what is behind it. */
  lemma EncodedHeader(env: Env, r: Record)
    requires BodyFits(env, r)
    ensures var e := Encoded(env, r);
            && |e| == 33 + (if r.key.Some? then |r.key.value| else 0) + |env.Compress(r.compression, r.value)|
            && e[..8] == U64Bytes(r.offset)
            && e[8..12] == U32Bytes(|e| - 12)
            && e[12..16] == U32Bytes(env.crc(e[16..]))
  {
    var body := Body(env, r);
    FrameLayout(U64Bytes(r.offset), U32Bytes(AsU32(4 + |body|)), U32Bytes(env.crc(body)), body);
  }

  lemma FrameLayout(off: seq<byte>, len: seq<byte>, crc: seq<byte>, body: seq<byte>)
    requires |off| == 8 && |len| == 4 && |crc| == 4
    ensures var e := Frame(off, len, crc, body);
            |e| == 16 + |body| && e[..8] == off && e[8..12] == len && e[12..16] == crc && e[16..] == body
  {
  }

  /** And the rest: compression codes 0 to 3, the time, all ones in place of a
      missing key's length, the key, and the value with its length, packed
      unless the code is 0. */
  lemma EncodedBody(env: Env, r: Record)
    requires BodyFits(env, r)
    ensures var body := Encoded(env, r)[16..];
            var packed := if r.compression.Uncompressed? then r.value else env.pack(r.compression, r.value);
            var k := if r.key.Some? then |r.key.value| else 0;
            && |body| == 17 + k + |packed|
            && body[0] == (match r.compression case Uncompressed => 0 case Gzip => 1 case Snappy => 2 case Lz4 => 3)
            && body[1..9] == U64Bytes(r.timestamp)
            && body[9..13] == (if r.key.Some? then U32Bytes(k) else [255, 255, 255, 255])
            && (r.key.Some? ==> body[13..13 + k] == r.key.value)
            && body[13 + k..17 + k] == U32Bytes(|packed|) && body[17 + k..] == packed
  {
    var body, packed := Body(env, r), env.Compress(r.compression, r.value);
    FrameLayout(U64Bytes(r.offset), U32Bytes(AsU32(4 + |body|)), U32Bytes(env.crc(body)), body);
    assert Encoded(env, r)[16..] == body;
    BodyParts(env, r, body, packed);
  }

  lemma BodyParts(env: Env, r: Record, body: seq<byte>, packed: seq<byte>)
    requires body == Body(env, r) && packed == env.Compress(r.compression, r.value) && 4 + |body| < TWO_32
    ensures var k := if r.key.Some? then |r.key.value| else 0;
            && |body| == 17 + k + |packed|
            && body[0] == CompressionCode(r.compression)
            && body[1..9] == U64Bytes(r.timestamp)
            && body[9..13] == (if r.key.Some? then U32Bytes(k) else [255, 255, 255, 255])
            && (r.key.Some? ==> body[13..13 + k] == r.key.value)
            && body[13 + k..17 + k] == U32Bytes(|packed|) && body[17 + k..] == packed
  {
    var key := KeyField(r.key);
    assert |body| == 1 + 8 + |key| + 4 + |packed|;
    KeyFieldParts(r.key);
    FourParts(CompressionCode(r.compression), U64Bytes(r.timestamp), key, U32Bytes(|packed|), packed);
  }

  lemma KeyFieldParts(key: Option<seq<byte>>)
    requires key.Some? ==> |key.value| < TWO_32
    ensures var f, k := KeyField(key), if key.Some? then |key.value| else 0;
            && |f| == 4 + k && (key.Some? ==> f[4..] == key.value)
            && f[..4] == if key.Some? then U32Bytes(k) else [255, 255, 255, 255]
  {
    U32BytesAre(TWO_32 - 1);
  }

  lemma FourParts(code: byte, ts: seq<byte>, key: seq<byte>, len: seq<byte>, packed: seq<byte>)
    requires |ts| == 8 && |key| >= 4 && |len| == 4
    ensures var body, k := [code] + (ts + (key + (len + packed))), |key| - 4;
            && |body| == 17 + k + |packed|
            && body[0] == code && body[1..9] == ts && body[9..13] == key[..4] && body[13..13 + k] == key[4..]
            && body[13 + k..17 + k] == len && body[17 + k..] == packed
  {
  }

  /** Everything decode decides before it looks inside a body, on any bytes. */
  lemma ParseOutcome(env: Env, b: seq<byte>)
    ensures |b| < 16 ==> Parse(env, b) == Err(ReadFailed)
    ensures |b| >= 16 ==>
              var len := (b[8] as int) * 0x100_0000 + (b[9] as int) * 0x1_0000 + (b[10] as int) * 0x100 + b[11];
              var crc := (b[12] as int) * 0x100_0000 + (b[13] as int) * 0x1_0000 + (b[14] as int) * 0x100 + b[15];
              && (len < 4 ==> Parse(env, b) == Err(LengthUnderflow))
              && (len >= 4 && |b| < 12 + len ==> Parse(env, b) == Err(ReadFailed))
              && (4 <= len <= |b| - 12 && env.crc(b[16..12 + len]) != crc ==> Parse(env, b) == Err(Corruption))
              && (4 <= len <= |b| - 12 && env.crc(b[16..12 + len]) == crc ==>
                    Parse(env, b) != Err(Corruption) && Parse(env, b) != Err(LengthUnderflow))
  {
    if |b| >= 16 {
      var lenBytes, crcBytes := b[8..][..4], b[8..][4..][..4];
      ReadU32Is(lenBytes);
      ReadU32Is(crcBytes);
      var len := ReadU32(lenBytes);
      if 4 <= len <= |b| - 12 {
        assert b[8..][4..][4..][..len - 4] == b[16..12 + len];
        ParseBodyErrors(env, ReadU64(b[..8]), b[16..12 + len]);
      }
    }
  }

  lemma ParseBodyErrors(env: Env, offset: u64, d: seq<byte>)
    ensures ParseBody(env, offset, d) != Err(Corruption) && ParseBody(env, offset, d) != Err(LengthUnderflow)
  {
  }

  /** A code above 3 is refused before anything behind it is read, and a value
      that the codec cannot unpack is refused after everything was. */
  lemma ParseBodyOutcome(env: Env, offset: u64, code: byte, ts: seq<byte>, key: Option<seq<byte>>, packed: seq<byte>)
    requires |ts| == 8 && |packed| < TWO_32 && (key.Some? ==> |key.value| < TWO_31)
    ensures forall d: seq<byte> :: code > 3 ==> ParseBody(env, offset, [code] + d) == Err(UnknownCompression)
    ensures var got := ParseBody(env, offset, [code] + (ts + (KeyField(key) + ValueField(packed))));
            && (code == 0 ==> got == Ok(Record(offset, ReadU64(ts), key, packed, Uncompressed)))
            && (1 <= code <= 3 ==>
                  var c := if code == 1 then Gzip else if code == 2 then Snappy else Lz4;
                  match env.unpack(c, packed)
                  case None => got == Err(BadCompressedData)
                  case Some(v) => got == Ok(Record(offset, ReadU64(ts), key, v, c)))
  {
    forall d: seq<byte> | code > 3
      ensures ParseBody(env, offset, [code] + d) == Err(UnknownCompression)
    {
      TakeFront([code], d);
    }
    if code <= 3 {
      KeyRoundTrip(key, ValueField(packed));
      ValueRoundTrip(packed);
      ParseBodyParts(env, offset, code, ts, KeyField(key) + ValueField(packed));
    }
  }

  /** A record whose body was changed on disk, but not its length, is found out
      whenever the checksums of the two bodies differ. */
  lemma DamageIsFound(env: Env, r: Record, body: seq<byte>, rest: seq<byte>)
    requires BodyFits(env, r) && |body| == |Encoded(env, r)| - 16
    requires env.crc(body) != env.crc(Encoded(env, r)[16..])
    ensures Parse(env, Encoded(env, r)[..16] + body + rest) == Err(Corruption)
  {
    EncodedHeader(env, r);
    var e := Encoded(env, r);
    var b := e[..16] + body + rest;
    assert b[8..12] == e[8..12] && b[12..16] == e[12..16] && b[16..16 + |body|] == body;
    ReadU32Is(b[8..12]);
    ReadU32Is(b[12..16]);
    ParseOutcome(env, b);
  }

  lemma TornFrameFails(env: Env, off: seq<byte>, len: seq<byte>, crc: seq<byte>, body: seq<byte>, t: seq<byte>)
    requires |off| == 8 && |len| == 4 && |crc| == 4 && ReadU32(len) == 4 + |body|
    requires t < Frame(off, len, crc, body)
    ensures Parse(env, t) == Err(ReadFailed)
  {
    if |t| >= 12 {
      assert t[8..][..4] == len;
    }
  }

  /** Every proper prefix of one encoding fails to decode, and never panics. */
  lemma TornRecordFails(env: Env, r: Record, t: seq<byte>)
    requires BodyFits(env, r) && t < Encoded(env, r)
    ensures Parse(env, t) == Err(ReadFailed)
  {
    var off, len, crc, body := EncodedParts(env, r);
    TornFrameFails(env, off, len, crc, body, t);
  }
}
