/** Reading and writing fields of a byte image, in both byte orders. */
module Bytes {
  import opened Words

  function Get(img: seq<Byte>, at: nat, n: nat): (r: seq<Byte>)
    requires at + n <= |img|
    ensures |r| == n
  {
    img[at..at + n]
  }

  function Put(img: seq<Byte>, at: nat, bytes: seq<Byte>): (r: seq<Byte>)
    requires at + |bytes| <= |img|
    ensures |r| == |img|
  {
    img[..at] + bytes + img[at + |bytes|..]
  }

  lemma PutThenGet(img: seq<Byte>, at: nat, bytes: seq<Byte>, from: nat, n: nat)
    requires at + |bytes| <= |img| && from + n <= |img|
    ensures from == at && n == |bytes| ==> Get(Put(img, at, bytes), from, n) == bytes
    ensures from + n <= at || at + |bytes| <= from ==> Get(Put(img, at, bytes), from, n) == Get(img, from, n)
  {
  }

  /** Overwriting a range and putting its old bytes back leaves the image as it was. */
  lemma PutBack(img: seq<Byte>, at: nat, bytes: seq<Byte>)
    requires at + |bytes| <= |img|
    ensures Put(Put(img, at, bytes), at, Get(img, at, |bytes|)) == img
  {
  }

  // ---- Integers ----------------------------------------------------------------------

  function LittleEndian(x: nat, n: nat): (r: seq<Byte>)
    ensures |r| == n
  {
    if n == 0 then [] else [x % 0x100] + LittleEndian(x / 0x100, n - 1)
  }

  function FromLittleEndian(b: seq<Byte>): nat {
    if b == [] then 0 else b[0] + 0x100 * FromLittleEndian(b[1..])
  }

  function Power(n: nat): (r: nat)
    ensures r > 0
  {
    if n == 0 then 1 else 0x100 * Power(n - 1)
  }

  lemma {:induction false} LittleEndianInverse(x: nat, n: nat)
    requires x < Power(n)
    ensures FromLittleEndian(LittleEndian(x, n)) == x
  {
    if n > 0 {
      LittleEndianInverse(x / 0x100, n - 1);
      assert LittleEndian(x, n)[1..] == LittleEndian(x / 0x100, n - 1);
    }
  }

  function BigEndian(b: seq<Byte>): nat {
    if b == [] then 0 else b[0] * Power(|b| - 1) + BigEndian(b[1..])
  }

  lemma Scale(x: Byte, p: nat)
    ensures x * p <= 0xff * p
  {
  }

  lemma {:induction false} BigEndianBound(b: seq<Byte>)
    ensures BigEndian(b) < Power(|b|)
  {
    if b != [] {
      BigEndianBound(b[1..]);
      var p := Power(|b| - 1);
      assert Power(|b|) == 0x100 * p;
      Scale(b[0], p);
      hide Power;
    }
  }

  /** A leading zero byte keeps the integer below 256^(n-1). */
  lemma LeadingZero(b: seq<Byte>)
    requires b != [] && b[0] == 0
    ensures BigEndian(b) < Power(|b| - 1)
  {
    BigEndianBound(b[1..]);
  }

  function Reversed(b: seq<Byte>): (r: seq<Byte>)
    requires |b| == 4
    ensures |r| == 4
  {
    [b[3], b[2], b[1], b[0]]
  }

  lemma PowerOf4()
    ensures Power(2) == 0x1_0000 && Power(4) == ULONG_RANGE
  {
    assert Power(1) == 0x100;
    assert Power(2) == 0x1_0000;
    assert Power(3) == 0x100_0000;
  }

  lemma Word32(x: nat)
    requires x < ULONG_RANGE
    ensures FromLittleEndian(LittleEndian(x, 4)) == x
  {
    PowerOf4();
    LittleEndianInverse(x, 4);
  }

  /** The byte-swapped word of a value below 2^24 starts with a zero byte. */
  lemma SwappedTop(x: nat)
    requires x < 0x100_0000
    ensures Reversed(LittleEndian(x, 4))[0] == 0
  {
    assert LittleEndian(x, 4)[3] == LittleEndian(x / 0x100, 3)[2] == LittleEndian(x / 0x100 / 0x100, 2)[1];
    assert LittleEndian(x / 0x100 / 0x100, 2)[1] == x / 0x100 / 0x100 / 0x100 % 0x100;
  }

  /** A 32-bit number as four bytes, low byte first and high byte first. */
  function LowFirst(n: nat): (b: seq<Byte>)
    requires n < ULONG_RANGE
    ensures |b| == 4
  {
    [n % 0x100, n / 0x100 % 0x100, n / 0x1_0000 % 0x100, n / 0x100_0000]
  }

  function HighFirst(n: nat): (b: seq<Byte>)
    requires n < ULONG_RANGE
    ensures |b| == 4
  {
    [n / 0x100_0000, n / 0x1_0000 % 0x100, n / 0x100 % 0x100, n % 0x100]
  }

  lemma FourBytes(n: nat)
    requires n < ULONG_RANGE
    ensures LittleEndian(n, 4) == LowFirst(n) && Reversed(LittleEndian(n, 4)) == HighFirst(n)
  {
    assert LittleEndian(n, 4) == [n % 0x100] + LittleEndian(n / 0x100, 3);
    assert LittleEndian(n / 0x100, 3) == [n / 0x100 % 0x100] + LittleEndian(n / 0x1_0000, 2);
    assert LittleEndian(n / 0x1_0000, 2) == [n / 0x1_0000 % 0x100] + LittleEndian(n / 0x100_0000, 1);
    assert LittleEndian(n / 0x100_0000, 1) == [n / 0x100_0000];
  }

  lemma {:induction false} BytesBack(b: seq<Byte>)
    ensures FromLittleEndian(b) < Power(|b|) && LittleEndian(FromLittleEndian(b), |b|) == b
  {
    if b != [] {
      BytesBack(b[1..]);
      var low: int, rest := b[0], FromLittleEndian(b[1..]);
      assert FromLittleEndian(b) == low + 0x100 * rest;
      assert (low + 0x100 * rest) % 0x100 == low && (low + 0x100 * rest) / 0x100 == rest;
      assert b == [b[0]] + b[1..];
    }
  }

  lemma FourBytesBack(b: seq<Byte>)
    requires |b| == 4
    ensures FromLittleEndian(b) < ULONG_RANGE && LowFirst(FromLittleEndian(b)) == b
  {
    BytesBack(b);
    PowerOf4();
    FourBytes(FromLittleEndian(b));
    hide LowFirst, LittleEndian, FromLittleEndian;
  }
}
