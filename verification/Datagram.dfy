/** A fragment inside an AES packet: the `E_PACKET` header and its round trip over the wire. */
module Datagram {
  import opened Words
  import opened Bytes
  import opened Crypto
  import opened PacketSpec
  import opened PacketTheorems
  import opened Fragments

  const HEADER: nat := 12

  function EPacket(f: Fragment): (b: seq<Byte>)
    ensures |b| == HEADER + |f.buf|
  {
    LittleEndian(f.length, 4) + LittleEndian(f.kind, 4) + LittleEndian(f.M, 2) + LittleEndian(f.N, 2) + f.buf
  }

  function Parse(b: seq<Byte>): Fragment
    requires |b| >= HEADER
  {
    Fragment(FromLittleEndian(b[..4]), FromLittleEndian(b[4..8]), FromLittleEndian(b[8..10]),
             FromLittleEndian(b[10..12]), b[12..])
  }

  lemma ParseEPacket(f: Fragment)
    requires f.length < ULONG_RANGE && f.kind < ULONG_RANGE && f.M < 0x1_0000 && f.N < 0x1_0000
    ensures Parse(EPacket(f)) == f
  {
    PowerOf4();
    LittleEndianInverse(f.length, 4);
    LittleEndianInverse(f.kind, 4);
    LittleEndianInverse(f.M, 2);
    LittleEndianInverse(f.N, 2);
    var b := EPacket(f);
    assert b[..4] == LittleEndian(f.length, 4);
    assert b[4..8] == LittleEndian(f.kind, 4);
    assert b[8..10] == LittleEndian(f.M, 2);
    assert b[10..12] == LittleEndian(f.N, 2);
    assert b[12..] == f.buf;
  }

  /** The fragment header on the wire: length, type, message number and index, each low byte first. */
  lemma EPacketImage(f: Fragment)
    requires f.length < ULONG_RANGE && f.kind < ULONG_RANGE && f.M < 0x1_0000 && f.N < 0x1_0000
    ensures EPacket(f) == LowFirst(f.length) + LowFirst(f.kind) + [f.M % 0x100, f.M / 0x100]
                          + [f.N % 0x100, f.N / 0x100] + f.buf
  {
    FourBytes(f.length);
    FourBytes(f.kind);
    TwoBytes(f.M);
    TwoBytes(f.N);
    hide LittleEndian, LowFirst;
  }

  lemma TwoBytes(n: nat)
    requires n < 0x1_0000
    ensures LittleEndian(n, 2) == [n % 0x100, n / 0x100]
  {
    assert LittleEndian(n / 0x100, 1) == [n / 0x100];
  }

  /** The receiver of this datagram reads this fragment. */
  ghost predicate Reads(c: Suite, img: seq<Byte>, key: Key, f: Fragment)
    requires GcmLaw(c)
  {
    && SizeValid(img)
    && var (d, o) := AesDecode(c, img, key);
       && o.Decoded? && HEADER <= o.cb && o.at + o.cb <= |d| && Parse(Get(d, o.at, o.cb)) == f
  }

  /** Every fragment of every message arrives as it was cut, through encryption and layout. */
  lemma FragmentOverTheWire(c: Suite, img: seq<Byte>, key: Key, nonce: seq<Byte>, m: Message, M: nat, n: nat)
    requires GcmLaw(c) && |nonce| == NONCE_SIZE && Sendable(m) && m.kind < ULONG_RANGE && M < 0x1_0000
    requires n < FragmentCount(|m.data|) && |img| == BUF + HEADER + FragmentLength(|m.data|, n)
    ensures var f := FragmentOf(m, M, n);
            Reads(c, AesEncode(c, img, key, nonce, EPacket(f)), key, f)
  {
    var f := FragmentOf(m, M, n);
    AesRoundTrip(c, img, key, nonce, EPacket(f));
    ParseEPacket(f);
    hide AesEncode, AesDecode, EPacket, Parse, GcmLaw, Get;
  }
}
