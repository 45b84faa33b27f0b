/** Length-prefixed framing: protocol/src/codec.rs. GaffaCodec and ClientCodec
    run the same code on different message types, so one generic model of a
    message type M stands for both directions. */
module Codec {
  import opened Bytes

  const MAX_MESSAGE_SIZE: nat := 10 * 1024 * 1024

  datatype FrameError = TooLarge(size: nat) | Undeserializable

  /** The serialisation library, as an abstract pair of functions. */
  datatype Serde<!M> = Serde(serialize: M -> seq<byte>, deserialize: seq<byte> -> Option<M>)
  {
    ghost predicate Inverse(m: M) {
      deserialize(serialize(m)) == Some(m)
    }
  }

  // ------------------------------------------------------------ specification

  /** The payload length the next frame announces, once its prefix is there. */
  function Announced(b: seq<byte>): nat
    requires |b| >= 4
  {
    ReadU32(b[..4])
  }

  /** Whether the buffer starts with a whole frame of acceptable size. */
  predicate HasFrame(b: seq<byte>) {
    |b| >= 4 && Announced(b) <= MAX_MESSAGE_SIZE && |b| >= 4 + Announced(b)
  }

  predicate Oversized(b: seq<byte>) {
    |b| >= 4 && Announced(b) > MAX_MESSAGE_SIZE
  }

  /** What repeated decoding makes of a buffer: the messages before the first
      error, the bytes that remain, and that error. */
  datatype Drained<M> = Drained(messages: seq<M>, rest: seq<byte>, error: Option<FrameError>)

  function Drain<M(==)>(serde: Serde<M>, b: seq<byte>): Drained<M>
    decreases |b|
  {
    if Oversized(b) then Drained([], b, Some(TooLarge(Announced(b))))
    else if !HasFrame(b) then Drained([], b, None)
    else
      var end := 4 + Announced(b);
      match serde.deserialize(b[4..end])
      case None => Drained([], b[end..], Some(Undeserializable))
      case Some(m) => Prepend(m, Drain(serde, b[end..]))
  }

  function Prepend<M>(m: M, d: Drained<M>): Drained<M> {
    Drained([m] + d.messages, d.rest, d.error)
  }

  /** Draining goes on with b appended to what the first part left behind,
      unless that part ended in an error. */
  function Resume<M(==)>(serde: Serde<M>, first: Drained<M>, b: seq<byte>): Drained<M> {
    if first.error.Some? then Drained(first.messages, first.rest + b, first.error)
    else
      var second := Drain(serde, first.rest + b);
      Drained(first.messages + second.messages, second.rest, second.error)
  }

  function Flatten(chunks: seq<seq<byte>>): seq<byte> {
    if |chunks| == 0 then [] else chunks[0] + Flatten(chunks[1..])
  }

  function Frame(data: seq<byte>): seq<byte>
    requires |data| < TWO_32
  {
    U32Bytes(|data|) + data
  }

  predicate FitsFrame<M(==)>(serde: Serde<M>, m: M) {
    |serde.serialize(m)| <= MAX_MESSAGE_SIZE
  }

  function Frames<M(==)>(serde: Serde<M>, ms: seq<M>): seq<byte>
    requires forall m :: m in ms ==> FitsFrame(serde, m)
  {
    if |ms| == 0 then []
    else
      assert FitsFrame(serde, ms[0]);
      Frame(serde.serialize(ms[0])) + Frames(serde, ms[1..])
  }

  // ---------------------------------------------------------------- the code

  class ByteBuffer {
    var bytes: seq<byte>

    constructor ()
      ensures bytes == []
    {
      bytes := [];
    }

    method Put(b: seq<byte>)
      modifies this
      ensures bytes == old(bytes) + b
    {
      bytes := bytes + b;
    }

    method SplitTo(n: nat) returns (front: seq<byte>)
      requires n <= |bytes|
      modifies this
      ensures front == old(bytes)[..n] && bytes == old(bytes)[n..]
    {
      front := bytes[..n];
      bytes := bytes[n..];
    }
  }

  /** Encoder::encode appends one frame, or nothing when the message is too big. */
  method Encode<M(==)>(serde: Serde<M>, item: M, dst: ByteBuffer) returns (res: Result<(), FrameError>)
    modifies dst
    ensures FitsFrame(serde, item) ==> res == Ok(()) && dst.bytes == old(dst.bytes) + Frame(serde.serialize(item))
    ensures !FitsFrame(serde, item) ==>
              res == Err(TooLarge(|serde.serialize(item)|)) && dst.bytes == old(dst.bytes)
  {
    var data := serde.serialize(item);
    if |data| > MAX_MESSAGE_SIZE {
      return Err(TooLarge(|data|));
    }
    ghost var before := dst.bytes;
    dst.Put(U32Bytes(|data|));
    dst.Put(data);
    assert before + U32Bytes(|data|) + data == before + Frame(data);
    return Ok(());
  }

  /** Decoder::decode: a frame that is not whole yet stays in the buffer. */
  method Decode<M(==)>(serde: Serde<M>, src: ByteBuffer) returns (res: Result<Option<M>, FrameError>)
    modifies src
    ensures Oversized(old(src.bytes)) ==>
              res == Err(TooLarge(Announced(old(src.bytes)))) && src.bytes == old(src.bytes)
    ensures !Oversized(old(src.bytes)) && !HasFrame(old(src.bytes)) ==>
              res == Ok(None) && src.bytes == old(src.bytes)
    ensures HasFrame(old(src.bytes)) ==>
              var end := 4 + Announced(old(src.bytes));
              && src.bytes == old(src.bytes)[end..]
              && match serde.deserialize(old(src.bytes)[4..end])
                 case None => res == Err(Undeserializable)
                 case Some(m) => res == Ok(Some(m))
  {
    if |src.bytes| < 4 {
      return Ok(None);
    }
    var length := ReadU32(src.bytes[..4]);
    if length > MAX_MESSAGE_SIZE {
      return Err(TooLarge(length));
    }
    if |src.bytes| < 4 + length {
      return Ok(None);
    }
    ghost var whole := src.bytes;
    var prefix := src.SplitTo(4);
    var data := src.SplitTo(length);
    assert data == whole[4..4 + length] && src.bytes == whole[4 + length..];
    match serde.deserialize(data)
    case None => return Err(Undeserializable);
    case Some(m) => return Ok(Some(m));
  }

  /** These messages were decoded from the front of `whole`, and b is left. */
  ghost predicate Receiving<M>(serde: Serde<M>, whole: seq<byte>, messages: seq<M>, b: seq<byte>) {
    var d := Drain(serde, b);
    Drain(serde, whole) == Drained(messages + d.messages, d.rest, d.error)
  }

  lemma ReceivingStep<M>(serde: Serde<M>, whole: seq<byte>, messages: seq<M>, b: seq<byte>)
    requires Receiving(serde, whole, messages, b)
    ensures Oversized(b) ==> Drain(serde, whole) == Drained(messages, b, Some(TooLarge(Announced(b))))
    ensures !Oversized(b) && !HasFrame(b) ==> Drain(serde, whole) == Drained(messages, b, None)
    ensures HasFrame(b) ==>
              var end := 4 + Announced(b);
              match serde.deserialize(b[4..end])
              case None => Drain(serde, whole) == Drained(messages, b[end..], Some(Undeserializable))
              case Some(m) => Receiving(serde, whole, messages + [m], b[end..])
  {
    assert messages + [] == messages;
    if HasFrame(b) {
      var end := 4 + Announced(b);
      var later := Drain(serde, b[end..]).messages;
      assert forall m: M :: messages + ([m] + later) == messages + [m] + later;
    }
  }

  /** The transport's side: a chunk arrives, then frames are decoded until
      there is none left or one fails. */
  method Receive<M(==)>(serde: Serde<M>, src: ByteBuffer, chunk: seq<byte>) returns (messages: seq<M>, error: Option<FrameError>)
    modifies src
    ensures Drained(messages, src.bytes, error) == Drain(serde, old(src.bytes) + chunk)
  {
    src.Put(chunk);
    ghost var whole := src.bytes;
    messages, error := [], None;
    while true
      invariant Receiving(serde, whole, messages, src.bytes)
      decreases |src.bytes|
    {
      ReceivingStep(serde, whole, messages, src.bytes);
      var res := Decode(serde, src);
      match res
      case Err(e) =>
        error := Some(e);
        return;
      case Ok(None) =>
        return;
      case Ok(Some(m)) =>
        messages := messages + [m];
    }
  }

  /** A whole connection: chunks in order, until the first error. */
  method ReceiveAll<M(==)>(serde: Serde<M>, chunks: seq<seq<byte>>)
    returns (messages: seq<M>, rest: seq<byte>, error: Option<FrameError>)
    ensures var d := Drain(serde, Flatten(chunks));
            messages == d.messages && error == d.error && (error.None? ==> rest == d.rest)
  {
    var src := new ByteBuffer();
    messages, error := [], None;
    ghost var whole := Drain(serde, Flatten(chunks));
    ghost var left := Flatten(chunks);
    assert chunks[0..] == chunks && [] + left == left && [] + whole.messages == whole.messages;
    for i := 0 to |chunks|
      invariant error == None && left == Flatten(chunks[i..])
      invariant !HasFrame(src.bytes) && !Oversized(src.bytes)
      invariant whole == Resume(serde, Drained(messages, src.bytes, None), left)
    {
      ghost var before := src.bytes;
      ghost var later := Flatten(chunks[i + 1..]);
      assert chunks[i..][0] == chunks[i] && chunks[i..][1..] == chunks[i + 1..];
      var more;
      more, error := Receive(serde, src, chunks[i]);
      ChunkArrives(serde, messages, before, chunks[i], later);
      DrainSettles(serde, before + chunks[i]);
      messages := messages + more;
      left := later;
      if error.Some? {
        rest := src.bytes;
        return;
      }
    }
    rest := src.bytes;
    assert src.bytes + [] == src.bytes && messages + [] == messages;
  }

  // ---------------------------------------------------------------- theorems

  /** A frame on the wire is the payload's length in four bytes, the most
      significant first, and the payload. */
  lemma FrameLayout(data: seq<byte>)
    requires |data| <= 10 * 1024 * 1024
    ensures Frame(data) == [|data| / 0x100_0000, |data| / 0x1_0000 % 0x100, |data| / 0x100 % 0x100, |data| % 0x100] + data
  {
    U32BytesAre(|data|);
  }

  /** What the receiver makes of any buffer depends on those four bytes: wait
      for more, refuse more than ten mebibytes, or take a frame. */
  lemma FrontOf(b: seq<byte>)
    ensures |b| < 4 ==> !HasFrame(b) && !Oversized(b)
    ensures |b| >= 4 ==>
              var n := (b[0] as int) * 0x100_0000 + (b[1] as int) * 0x1_0000 + (b[2] as int) * 0x100 + b[3];
              && Announced(b) == n
              && (Oversized(b) <==> n > 10 * 1024 * 1024)
              && (HasFrame(b) <==> n <= 10 * 1024 * 1024 && |b| >= 4 + n)
  {
    if |b| >= 4 {
      ReadU32Is(b[..4]);
    }
  }

  /** Bytes that arrive later change nothing about the frame at the front. */
  lemma FrontIsSettled(a: seq<byte>, b: seq<byte>)
    requires |a| >= 4
    ensures Announced(a + b) == Announced(a)
    ensures HasFrame(a) ==>
              var end := 4 + Announced(a);
              HasFrame(a + b) && (a + b)[4..end] == a[4..end] && (a + b)[end..] == a[end..] + b
  {
    assert (a + b)[..4] == a[..4];
  }

  /** Draining what has arrived and draining the remainder with what comes
      later is draining everything at once. */
  lemma {:induction false} DrainMore<M>(serde: Serde<M>, a: seq<byte>, b: seq<byte>)
    ensures Drain(serde, a + b) == Resume(serde, Drain(serde, a), b)
    decreases |a|
  {
    if Oversized(a) {
      FrontIsSettled(a, b);
    } else if !HasFrame(a) {
      assert forall later: seq<M> :: [] + later == later;
    } else {
      FrontIsSettled(a, b);
      var end := 4 + Announced(a);
      match serde.deserialize(a[4..end])
      case None =>
      case Some(m) =>
        DrainMore(serde, a[end..], b);
        PrependResumes(serde, m, Drain(serde, a[end..]), b);
    }
  }

  lemma PrependResumes<M>(serde: Serde<M>, m: M, first: Drained<M>, b: seq<byte>)
    ensures Resume(serde, Prepend(m, first), b) == Prepend(m, Resume(serde, first, b))
  {
    BehindResumes(serde, [m], first, b);
  }

  /** Messages that were there before stay in front. */
  lemma BehindResumes<M>(serde: Serde<M>, messages: seq<M>, d: Drained<M>, b: seq<byte>)
    ensures var r := Resume(serde, d, b);
            Resume(serde, Drained(messages + d.messages, d.rest, d.error), b) == Drained(messages + r.messages, r.rest, r.error)
  {
    if d.error.None? {
      var later := Drain(serde, d.rest + b).messages;
      assert (messages + d.messages) + later == messages + (d.messages + later);
    }
  }

  /** What is left after draining without an error holds no whole frame. */
  lemma {:induction false} DrainSettles<M>(serde: Serde<M>, b: seq<byte>)
    ensures var d := Drain(serde, b);
            d.error.None? ==> !HasFrame(d.rest) && !Oversized(d.rest)
    decreases |b|
  {
    if HasFrame(b) {
      DrainSettles(serde, b[4 + Announced(b)..]);
    }
  }

  lemma ChunkArrives<M>(serde: Serde<M>, messages: seq<M>, before: seq<byte>, chunk: seq<byte>, later: seq<byte>)
    ensures var d := Drain(serde, before + chunk);
            Resume(serde, Drained(messages, before, None), chunk + later)
            == Resume(serde, Drained(messages + d.messages, d.rest, d.error), later)
  {
    assert before + (chunk + later) == (before + chunk) + later;
    DrainMore(serde, before + chunk, later);
    BehindResumes(serde, messages, Drain(serde, before + chunk), later);
  }

  lemma FrameFirst(data: seq<byte>, rest: seq<byte>)
    requires |data| <= MAX_MESSAGE_SIZE
    ensures var b := Frame(data) + rest;
            && HasFrame(b) && Announced(b) == |data|
            && b[4..4 + |data|] == data && b[4 + |data|..] == rest
  {
    var b := Frame(data) + rest;
    assert b == U32Bytes(|data|) + (data + rest);
    assert b[..4] == U32Bytes(|data|);
  }

  /** Encoding a list of messages and draining the bytes gives the list back,
      and leaves an unfinished frame behind untouched. */
  lemma {:induction false} DrainFrames<M>(serde: Serde<M>, ms: seq<M>, tail: seq<byte>)
    requires forall m :: m in ms ==> FitsFrame(serde, m) && serde.Inverse(m)
    requires !HasFrame(tail) && !Oversized(tail)
    ensures Drain(serde, Frames(serde, ms) + tail) == Drained(ms, tail, None)
  {
    if |ms| == 0 {
      assert [] + tail == tail;
    } else {
      var data := serde.serialize(ms[0]);
      var rest := Frames(serde, ms[1..]) + tail;
      assert serde.Inverse(ms[0]) && FitsFrame(serde, ms[0]);
      assert Frames(serde, ms) + tail == Frame(data) + rest;
      FrameFirst(data, rest);
      DrainFrames(serde, ms[1..], tail);
      assert [ms[0]] + ms[1..] == ms;
    }
  }

  /** Whatever follows the frames of some messages, those messages come first,
      and what follows is decoded as if it stood alone. */
  lemma {:induction false} DrainBehind<M>(serde: Serde<M>, ms: seq<M>, b: seq<byte>)
    requires forall m :: m in ms ==> FitsFrame(serde, m) && serde.Inverse(m)
    ensures var d := Drain(serde, b);
            Drain(serde, Frames(serde, ms) + b) == Drained(ms + d.messages, d.rest, d.error)
  {
    assert !HasFrame([]) && !Oversized([]);
    DrainFrames(serde, ms, []);
    DrainMore(serde, Frames(serde, ms) + [], b);
    assert Frames(serde, ms) + [] == Frames(serde, ms) && [] + b == b;
  }

  /** A payload that cannot be deserialised ends the decoding: the messages
      before it are there, its frame is gone and what is behind it stays. */
  lemma StopsAtBadPayload<M>(serde: Serde<M>, ms: seq<M>, data: seq<byte>, later: seq<byte>)
    requires forall m :: m in ms ==> FitsFrame(serde, m) && serde.Inverse(m)
    requires |data| <= MAX_MESSAGE_SIZE && serde.deserialize(data) == None
    ensures Drain(serde, Frames(serde, ms) + (Frame(data) + later)) == Drained(ms, later, Some(Undeserializable))
  {
    FrameFirst(data, later);
    DrainBehind(serde, ms, Frame(data) + later);
    assert ms + [] == ms;
  }

  /** An announced length over the limit ends it too, with nothing consumed. */
  lemma StopsAtOversized<M>(serde: Serde<M>, ms: seq<M>, n: u32, later: seq<byte>)
    requires forall m :: m in ms ==> FitsFrame(serde, m) && serde.Inverse(m)
    requires n > 10 * 1024 * 1024
    ensures Drain(serde, Frames(serde, ms) + (U32Bytes(n) + later)) == Drained(ms, U32Bytes(n) + later, Some(TooLarge(n)))
  {
    assert (U32Bytes(n) + later)[..4] == U32Bytes(n);
    DrainBehind(serde, ms, U32Bytes(n) + later);
    assert ms + [] == ms;
  }

  /** However the bytes of a list of messages are cut into chunks, the receiver
      gets exactly that list. */
  method ReceiveFrames<M(==)>(serde: Serde<M>, chunks: seq<seq<byte>>, ghost ms: seq<M>, ghost tail: seq<byte>)
    returns (messages: seq<M>, rest: seq<byte>, error: Option<FrameError>)
    requires forall m :: m in ms ==> FitsFrame(serde, m) && serde.Inverse(m)
    requires !HasFrame(tail) && !Oversized(tail)
    requires Flatten(chunks) == Frames(serde, ms) + tail
    ensures messages == ms && rest == tail && error == None
  {
    DrainFrames(serde, ms, tail);
    messages, rest, error := ReceiveAll(serde, chunks);
  }
}
