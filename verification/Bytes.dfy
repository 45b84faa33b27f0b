/** Fixed-width unsigned integers, their big-endian byte form, and the small
    Option/Result datatypes the other modules share. */
module Bytes {
  const TWO_31: nat := 0x8000_0000
  const TWO_32: nat := 0x1_0000_0000
  const TWO_64: nat := 0x1_0000_0000_0000_0000

  type byte = n: nat | n < 256
  type u32 = n: nat | n < TWO_32
  type u64 = n: nat | n < TWO_64

  datatype Option<+T> = None | Some(value: T)

  datatype Result<+T, +E> = Ok(value: T) | Err(error: E) {
    predicate IsFailure() { Err? }

    function PropagateFailure<U>(): Result<U, E>
      requires Err?
    {
      Err(error)
    }

    function Extract(): T
      requires Ok?
    {
      value
    }
  }

  /** `width` bytes of n, most significant first; higher digits are cut off. */
  function BigEndian(n: nat, width: nat): (b: seq<byte>)
    ensures |b| == width
  {
    if width == 0 then [] else BigEndian(n / 256, width - 1) + [n % 256]
  }

  function FromBigEndian(b: seq<byte>): nat {
    if |b| == 0 then 0 else FromBigEndian(b[..|b| - 1]) * 256 + b[|b| - 1]
  }

  /** The number of values `width` bytes can hold. */
  function Capacity(width: nat): (c: nat)
    ensures c >= 1
  {
    if width == 0 then 1 else 256 * Capacity(width - 1)
  }

  lemma FourAndEightBytes()
    ensures Capacity(4) == TWO_32
    ensures Capacity(8) == TWO_64
  {
    assert Capacity(2) == 0x1_0000;
    assert Capacity(4) == 256 * (256 * Capacity(2));
    assert Capacity(6) == 256 * (256 * Capacity(4));
    assert Capacity(8) == 256 * (256 * Capacity(6));
  }

  lemma {:induction false} BigEndianRoundTrip(n: nat, width: nat)
    requires n < Capacity(width)
    ensures FromBigEndian(BigEndian(n, width)) == n
  {
    if width > 0 {
      BigEndianRoundTrip(n / 256, width - 1);
      var b := BigEndian(n, width);
      assert b[..|b| - 1] == BigEndian(n / 256, width - 1);
    }
  }

  lemma Regroup(q: nat, b: nat, s: nat, a: nat)
    ensures (q * b + s) * a == q * (a * b) + s * a
  {
    assert (q * b) * a == q * (a * b);
  }

  /** Two digits of bases a and b stay below a * b. */
  lemma TwoDigits(a: nat, b: nat, r: nat, s: nat)
    requires r < a && s < b
    ensures s * a + r < a * b
  {
    var d: nat := b - 1 - s;
    assert (s + 1 + d) * a == s * a + a + d * a;
  }

  /** Dividing twice is dividing by the product. */
  lemma DivideTwice(n: nat, a: nat, b: nat)
    requires a > 0 && b > 0
    ensures a * b > 0 && (n / a) / b == n / (a * b)
  {
    var m, r := n / a, n % a;
    TwoQuotients(n, a, b, r, m / b, m % b);
  }

  lemma TwoQuotients(n: nat, a: nat, b: nat, r: nat, q: nat, s: nat)
    requires n == (q * b + s) * a + r && r < a && s < b
    ensures a * b > 0 && q == n / (a * b)
  {
    Regroup(q, b, s, a);
    TwoDigits(a, b, r, s);
    QuotientIs(n, a * b, q, s * a + r);
  }

  /** Quotient and remainder are determined by what they add up to. */
  lemma QuotientIs(x: nat, n: nat, q: int, r: nat)
    requires n > 0 && x == q * n + r && r < n
    ensures x / n == q && x % n == r
  {
    var d := x / n - q;
    assert x == (x / n) * n + x % n;
    assert d * n == (x / n) * n - q * n;
    assert d > 0 ==> d * n >= n;
    assert d < 0 ==> d * n <= 0 - n;
  }

  /** Byte i counts what the bytes after it cannot hold. */
  lemma {:induction false} BigEndianDigit(n: nat, width: nat, i: nat)
    requires i < width
    ensures BigEndian(n, width)[i] == (n / Capacity(width - 1 - i)) % 256
  {
    if i < width - 1 {
      BigEndianDigit(n / 256, width - 1, i);
      DivideTwice(n, 256, Capacity(width - 2 - i));
    }
  }

  lemma SmallCapacities()
    ensures Capacity(0) == 1 && Capacity(1) == 0x100 && Capacity(2) == 0x1_0000 && Capacity(3) == 0x100_0000
  {
    assert Capacity(2) == 256 * Capacity(1) && Capacity(3) == 256 * Capacity(2);
  }

  lemma TopByte(n: u32)
    ensures n / 0x100_0000 % 0x100 == n / 0x100_0000
  {
  }

  /** So the first byte of four counts in steps of 2^24, the second in steps of
      2^16, and the third in steps of 2^8. */
  lemma U32BytesAre(n: u32)
    ensures U32Bytes(n) == [n / 0x100_0000, n / 0x1_0000 % 0x100, n / 0x100 % 0x100, n % 0x100]
  {
    SmallCapacities();
    TopByte(n);
    BigEndianDigit(n, 4, 0);
    BigEndianDigit(n, 4, 1);
    BigEndianDigit(n, 4, 2);
    BigEndianDigit(n, 4, 3);
  }

  lemma {:induction false} FromBigEndianBound(b: seq<byte>)
    ensures FromBigEndian(b) < Capacity(|b|)
  {
    if |b| > 0 {
      FromBigEndianBound(b[..|b| - 1]);
    }
  }

  /** u32::from_be_bytes */
  function ReadU32(b: seq<byte>): u32
    requires |b| == 4
  {
    FourAndEightBytes();
    FromBigEndianBound(b);
    FromBigEndian(b)
  }

  /** The first byte weighs most. */
  lemma ReadU32Is(b: seq<byte>)
    requires |b| == 4
    ensures ReadU32(b) == (b[0] as int) * 0x100_0000 + (b[1] as int) * 0x1_0000 + (b[2] as int) * 0x100 + b[3]
  {
    var b3, b2, b1 := b[..3], b[..2], b[..1];
    assert b3[..2] == b2 && b2[..1] == b1 && b1[..0] == [];
    assert FromBigEndian(b1) == b[0] && FromBigEndian(b2) == FromBigEndian(b1) * 256 + b[1];
    assert FromBigEndian(b3) == FromBigEndian(b2) * 256 + b[2];
  }

  /** u64::from_be_bytes */
  function ReadU64(b: seq<byte>): u64
    requires |b| == 8
  {
    FourAndEightBytes();
    FromBigEndianBound(b);
    FromBigEndian(b)
  }

  /** u32::to_be_bytes */
  function U32Bytes(n: u32): (b: seq<byte>)
    ensures |b| == 4 && ReadU32(b) == n
  {
    FourAndEightBytes();
    BigEndianRoundTrip(n, 4);
    BigEndian(n, 4)
  }

  /** u64::to_be_bytes */
  function U64Bytes(n: u64): (b: seq<byte>)
    ensures |b| == 8 && ReadU64(b) == n
  {
    FourAndEightBytes();
    BigEndianRoundTrip(n, 8);
    BigEndian(n, 8)
  }

  /** A cast to u32 keeps the low 32 bits. */
  function AsU32(n: nat): (m: u32)
    ensures n < TWO_32 ==> m == n
  {
    n % TWO_32
  }

  /** i32::from_be_bytes: the same four bytes read in two's complement. */
  function ReadI32(b: seq<byte>): int
    requires |b| == 4
  {
    if ReadU32(b) < TWO_31 then ReadU32(b) else ReadU32(b) - TWO_32
  }

  lemma {:induction false} BigEndianOfNumber(b: seq<byte>)
    ensures FromBigEndian(b) < Capacity(|b|) && BigEndian(FromBigEndian(b), |b|) == b
  {
    FromBigEndianBound(b);
    if |b| > 0 {
      var front, last := b[..|b| - 1], b[|b| - 1];
      BigEndianOfNumber(front);
      QuotientIs(FromBigEndian(b), 256, FromBigEndian(front), last);
      assert b == front + [last];
    }
  }

  /** Eight bytes are the bytes of the number read from them, each counting
      what the ones after it cannot hold. */
  lemma U64BytesOf(b: seq<byte>)
    requires |b| == 8
    ensures U64Bytes(ReadU64(b)) == b
    ensures forall j :: 0 <= j < 8 ==> b[j] == (ReadU64(b) / Capacity(7 - j)) % 256
  {
    BigEndianOfNumber(b);
    forall j | 0 <= j < 8
      ensures b[j] == (ReadU64(b) / Capacity(7 - j)) % 256
    {
      BigEndianDigit(ReadU64(b), 8, j);
    }
  }
}
