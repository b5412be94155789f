/** `UH_PACKET` on the wire: what the encoders put at which byte, and exactly which packets the decoders
    accept, written out in bytes. */
module PacketLayout {
  import opened Words
  import opened Bytes
  import opened Crypto
  import opened PacketSpec
  import opened PacketTheorems

  /** The magic numbers read "RSA*", "RSA+", "AES*" and "ECDH". */
  lemma Magics()
    ensures LittleEndian(E_RSA, 4) == [0x52, 0x53, 0x41, 0x2a]
    ensures LittleEndian(E_RSA_AES, 4) == [0x52, 0x53, 0x41, 0x2b]
    ensures LittleEndian(E_AES, 4) == [0x41, 0x45, 0x53, 0x2a]
    ensures LittleEndian(E_ECDH, 4) == [0x45, 0x43, 0x44, 0x48]
  {
    hide LittleEndian;
    FourBytes(E_RSA);
    FourBytes(E_RSA_AES);
    FourBytes(E_AES);
    FourBytes(E_ECDH);
  }

  /** The fields of an image, from its start. */
  predicate Laid(img: seq<Byte>, cookie: seq<Byte>, magic: seq<Byte>, size: seq<Byte>, dataSize: seq<Byte>,
                 nonce: seq<Byte>, tag: seq<Byte>, buf: seq<Byte>)
  {
    && |img| == 48 + |buf|
    && Get(img, 0, 8) == cookie && Get(img, 8, 4) == magic && Get(img, 12, 4) == size && Get(img, 16, 4) == dataSize
    && Get(img, 20, 12) == nonce && Get(img, 32, 16) == tag && Get(img, 48, |buf|) == buf
  }

  lemma LaidIs(img: seq<Byte>, cookie: seq<Byte>, magic: seq<Byte>, size: seq<Byte>, dataSize: seq<Byte>,
               nonce: seq<Byte>, tag: seq<Byte>, buf: seq<Byte>)
    requires Laid(img, cookie, magic, size, dataSize, nonce, tag, buf)
    ensures img == cookie + magic + size + dataSize + nonce + tag + buf
  {
    assert img[..12] == cookie + magic;
    assert img[..16] == img[..12] + size;
    assert img[..20] == img[..16] + dataSize;
    assert img[..32] == img[..20] + nonce;
    assert img[..48] == img[..32] + tag;
    assert img == img[..48] + buf;
  }

  /** An AES packet: cookie, "AES*", packet size, data size, nonce, tag, ciphertext. */
  lemma AesImage(c: Suite, img: seq<Byte>, key: Key, nonce: seq<Byte>, data: seq<Byte>)
    requires GcmLaw(c) && |nonce| == 12 && |img| == 48 + |data| < ULONG_RANGE
    ensures var s := c.seal(key, nonce, data);
            AesEncode(c, img, key, nonce, data) ==
            img[..8] + [0x41, 0x45, 0x53, 0x2a] + LowFirst(48 + |data|) + LowFirst(|data|) + nonce + s.tag + s.cipher
  {
    var n, s := |data|, c.seal(key, nonce, data);
    var m := Put(img, MAGIC, LittleEndian(E_AES, 4));
    var d := Put(m, DATA_SIZE, LittleEndian(n, 4));
    var p := Put(d, PACKET_SIZE, LittleEndian(48 + n, 4));
    assert AesEncode(c, img, key, nonce, data) == AesSealed(c, p, key, nonce, data, BUF);
    assert |s.cipher| == n && Get(img, 0, 8) == img[..8];
    var e := AesSealed(c, p, key, nonce, data, BUF);
    Magics();
    FourBytes(n);
    FourBytes(48 + n);
    hide Put, Get, LittleEndian, LowFirst, AesEncode, AesSealed, GcmLaw;
    PutThenGet(img, MAGIC, LittleEndian(E_AES, 4), MAGIC, 4);
    PutThenGet(m, DATA_SIZE, LittleEndian(n, 4), DATA_SIZE, 4);
    PutThenGet(d, PACKET_SIZE, LittleEndian(48 + n, 4), PACKET_SIZE, 4);
    AllApart(img, MAGIC, LittleEndian(E_AES, 4));
    AllApart(m, DATA_SIZE, LittleEndian(n, 4));
    AllApart(d, PACKET_SIZE, LittleEndian(48 + n, 4));
    SealedCarries(c, p, key, nonce, data, BUF);
    LaidIs(e, Get(img, 0, 8), LittleEndian(E_AES, 4), LowFirst(48 + n), LowFirst(n), nonce, s.tag, s.cipher);
  }

  // ---- RSA ---------------------------------------------------------------------------

  lemma PutIs(img: seq<Byte>, at: nat, bytes: seq<Byte>)
    requires at + |bytes| <= |img|
    ensures Put(img, at, bytes)[..at] == img[..at] && Put(img, at, bytes)[at..at + |bytes|] == bytes
    ensures Put(img, at, bytes)[at + |bytes|..] == img[at + |bytes|..]
  {
  }

  /** The block from byte 16 on is encrypted in place, and the packet size filled in. */
  lemma BlockImage(c: Suite, b: seq<Byte>, head: seq<Byte>, body: seq<Byte>)
    requires RsaLaw(c) && 16 + c.blockLength <= |b| < ULONG_RANGE && b[..12] == head && b[16..] == body
    ensures var x, e := c.encrypt(body[..c.blockLength]), Encrypted(c, b);
            && (e.Some? <==> x.Some?)
            && (e.Some? ==>
                  PutWord(e.value, PACKET_SIZE, |b|) == head + LowFirst(|b|) + x.value + body[c.blockLength..])
  {
    var n := c.blockLength;
    FourBytes(|b|);
    assert Get(b, ENCRYPTED, n) == body[..n] by {
      assert b[16..][..n] == b[16..16 + n];
    }
    var x := c.encrypt(body[..n]);
    assert x.Some? ==> |x.value| == n;
    hide LittleEndian, LowFirst, RsaLaw, Get;
    if x.Some? {
      BlockPut(b, head, body, x.value, LittleEndian(|b|, 4));
    }
  }

  lemma BlockPut(b: seq<Byte>, head: seq<Byte>, body: seq<Byte>, x: seq<Byte>, w: seq<Byte>)
    requires 16 + |x| <= |b| && b[..12] == head && b[16..] == body && |w| == 4
    ensures Put(Put(b, 16, x), 12, w) == head + w + x + body[|x|..]
  {
    var e := Put(b, 16, x);
    PutIs(b, 16, x);
    assert e[..12] == e[..16][..12] == b[..16][..12] == head;
    assert b[16 + |x|..] == body[|x|..];
    assert e[16..] == e[16..16 + |x|] + e[16 + |x|..];
  }

  /** The RSA form, for a payload that fits the block beside its size: "RSA*", and the block made of the
      size, high byte first, the payload, and what was in the memory. */
  lemma RsaImage(c: Suite, memory: seq<Byte>, data: seq<Byte>, aes: Key, nonce: seq<Byte>)
    requires RsaLaw(c) && GcmLaw(c) && |aes| == KEY_SIZE && |nonce| == NONCE_SIZE
    requires |data| <= c.blockLength - 4 && |memory| == 16 + c.blockLength < ULONG_RANGE
    ensures |memory| == RsaSize(c, |data|, false)
    ensures var x := c.encrypt(HighFirst(|data|) + data + memory[20 + |data|..]);
            RsaEncode(c, memory, Some(data), aes, nonce, false) ==
            if x.None? then None else Some(memory[..8] + [0x52, 0x53, 0x41, 0x2a] + LowFirst(|memory|) + x.value)
  {
    var n, b := |data|, RsaBlock(memory, Some(data));
    var m := Put(memory, 8, LittleEndian(E_RSA, 4));
    var d := Put(m, 20, data);
    var body := HighFirst(n) + data + memory[20 + n..];
    Magics();
    FourBytes(n);
    assert b == Put(d, 16, Reversed(LittleEndian(n, 4)));
    assert |m| == |d| == |b| == |memory| && 20 + n <= |memory| && c.blockLength >= 64;
    assert ENCRYPTED + c.blockLength == |b| && PACKET_SIZE == 12;
    PlainForm(c, memory, data, aes, nonce);
    hide *;
    RsaParts(memory, m, d, b, LittleEndian(E_RSA, 4), data, HighFirst(n));
    BlockImage(c, b, memory[..8] + [0x52, 0x53, 0x41, 0x2a], body);
    var x := c.encrypt(body);
    WholeBlock(if x.Some? then memory[..8] + [0x52, 0x53, 0x41, 0x2a] + LowFirst(|memory|) + x.value else [], body,
               c.blockLength);
  }

  lemma WholeBlock(head: seq<Byte>, body: seq<Byte>, n: nat)
    requires |body| == n
    ensures body[..n] == body && head + body[n..] == head
  {
  }

  lemma PlainForm(c: Suite, memory: seq<Byte>, data: seq<Byte>, aes: Key, nonce: seq<Byte>)
    requires RsaLaw(c) && GcmLaw(c) && |aes| == KEY_SIZE && |nonce| == NONCE_SIZE
    requires |data| <= c.blockLength - 4 && |memory| == 16 + c.blockLength
    ensures |memory| == RsaSize(c, |data|, false)
    ensures var e := Encrypted(c, RsaBlock(memory, Some(data)));
            RsaEncode(c, memory, Some(data), aes, nonce, false) ==
            if e.None? then None else Some(PutWord(e.value, PACKET_SIZE, |memory|))
  {
  }

  lemma RsaParts(memory: seq<Byte>, m: seq<Byte>, d: seq<Byte>, b: seq<Byte>, magic: seq<Byte>, data: seq<Byte>,
                 size: seq<Byte>)
    requires |magic| == |size| == 4 && 20 + |data| <= |memory|
    requires m == Put(memory, 8, magic) && d == Put(m, 20, data) && b == Put(d, 16, size)
    ensures b[..12] == memory[..8] + magic && b[16..] == size + data + memory[20 + |data|..]
  {
    PutIs(memory, 8, magic);
    PutIs(m, 20, data);
    PutIs(d, 16, size);
    hide Put;
    RsaSlices(memory, m, d, b, |data|);
    assert b[..12] == b[..8] + b[8..12];
    assert b[16..] == b[16..20] + b[20..20 + |data|] + b[20 + |data|..];
  }

  lemma RsaSlices(memory: seq<Byte>, m: seq<Byte>, d: seq<Byte>, b: seq<Byte>, n: nat)
    requires 20 + n <= |memory| == |m| == |d| == |b| && m[..8] == memory[..8] && m[12..] == memory[12..]
    requires d[..20] == m[..20] && d[20 + n..] == m[20 + n..] && b[..16] == d[..16] && b[20..] == d[20..]
    ensures b[..8] == memory[..8] && b[8..12] == m[8..12] && b[20..20 + n] == d[20..20 + n]
    ensures b[20 + n..] == memory[20 + n..]
  {
    assert b[..8] == b[..16][..8] == d[..16][..8] == d[..20][..8] == m[..20][..8] == m[..8];
    assert b[8..12] == b[..16][8..12] == d[..16][8..12] == d[..20][8..12] == m[..20][8..12];
    assert b[20..20 + n] == b[20..][..n] == d[20..][..n];
    assert b[20 + n..] == b[20..][n..] == d[20..][n..] == d[20 + n..] == m[12..][8 + n..] == memory[12..][8 + n..];
  }

  /** What `AES_Encode_I` leaves, from byte 20 on. */
  lemma SealedParts(img: seq<Byte>, z: seq<Byte>, nonce: seq<Byte>, tag: seq<Byte>, at: nat, cipher: seq<Byte>)
    requires |nonce| == 12 && |tag| == 16 && 48 <= at && at + |cipher| <= |img|
    requires z == Put(Put(Put(img, 20, nonce), 32, tag), at, cipher)
    ensures |z| == |img| && z[..20] == img[..20]
    ensures z[20..] == nonce + tag + img[48..at] + cipher + img[at + |cipher|..]
  {
    var a := Put(img, 20, nonce);
    var b := Put(a, 32, tag);
    PutIs(img, 20, nonce);
    PutIs(a, 32, tag);
    PutIs(b, at, cipher);
    hide Put;
    SealedSlices(img, a, b, z, nonce, tag, at, cipher);
    assert z[20..] == z[20..32] + z[32..48] + z[48..at] + z[at..at + |cipher|] + z[at + |cipher|..];
  }

  lemma SealedSlices(img: seq<Byte>, a: seq<Byte>, b: seq<Byte>, z: seq<Byte>, nonce: seq<Byte>, tag: seq<Byte>,
                     at: nat, cipher: seq<Byte>)
    requires |nonce| == 12 && |tag| == 16 && 48 <= at && at + |cipher| <= |img| == |a| == |b| == |z|
    requires a[..20] == img[..20] && a[20..32] == nonce && a[32..] == img[32..]
    requires b[..32] == a[..32] && b[32..48] == tag && b[48..] == a[48..]
    requires z[..at] == b[..at] && z[at..at + |cipher|] == cipher && z[at + |cipher|..] == b[at + |cipher|..]
    ensures z[..20] == img[..20] && z[20..32] == nonce && z[32..48] == tag && z[48..at] == img[48..at]
    ensures z[at + |cipher|..] == img[at + |cipher|..]
  {
    assert z[..20] == z[..at][..20] == b[..at][..20] == b[..32][..20] == a[..32][..20] == a[..20];
    assert z[20..32] == z[..at][20..32] == b[..at][20..32] == b[..32][20..] == a[..32][20..] == a[20..32];
    assert z[32..48] == z[..at][32..48] == b[..at][32..48] == b[32..48];
    assert z[48..at] == z[..at][48..] == b[..at][48..] == b[48..][..at - 48] == a[48..][..at - 48];
    assert a[48..] == a[32..][16..] == img[32..][16..] == img[48..];
    assert z[at + |cipher|..] == b[48..][at + |cipher| - 48..] == img[48..][at + |cipher| - 48..];
  }

  /** The magic and the data size are written over an image. */
  lemma HeadParts(z: seq<Byte>, b: seq<Byte>, magic: seq<Byte>, size: seq<Byte>)
    requires |magic| == |size| == 4 && 20 <= |z| && b == Put(Put(z, 8, magic), 16, size)
    ensures |b| == |z| && b[..12] == z[..8] + magic && b[16..] == size + z[20..] && b[12..16] == z[12..16]
  {
    var m := Put(z, 8, magic);
    PutIs(z, 8, magic);
    PutIs(m, 16, size);
    hide Put;
    assert b[..12] == b[..16][..12] == m[..16][..12] == m[..8] + m[8..12];
    assert b[12..16] == b[..16][12..] == m[..16][12..] == m[12..][..4] == z[12..][..4];
    assert b[16..] == b[16..20] + b[20..] && b[20..] == m[20..] == m[12..][8..] == z[12..][8..];
  }

  function HybridSize(c: Suite, n: nat): nat {
    if 80 + n < 16 + c.blockLength then 16 + c.blockLength else 80 + n
  }

  /** What follows the packet size in the hybrid form, before the block is encrypted. */
  ghost function HybridBody(c: Suite, memory: seq<Byte>, data: seq<Byte>, aes: Key, nonce: seq<Byte>): seq<Byte>
    requires 80 + |data| <= |memory| && |data| < ULONG_RANGE
  {
    var s := c.seal(aes, nonce, data);
    HighFirst(|data|)
    + (if |data| > 0 then nonce + s.tag + aes + s.cipher else memory[20..48] + aes)
    + memory[80 + |data|..]
  }

  /** The hybrid form, for a longer payload or a key that the caller wants: "RSA+", and behind the size a
      nonce, a tag, the AES key and the ciphertext, of which the block encrypts the beginning. Without a
      payload the nonce and the tag stay what the memory held. */
  lemma HybridImage(c: Suite, memory: seq<Byte>, data: Option<seq<Byte>>, aes: Key, nonce: seq<Byte>, wantKey: bool)
    requires RsaLaw(c) && GcmLaw(c) && |aes| == 32 && |nonce| == 12 && |memory| < ULONG_RANGE
    requires wantKey || PayloadSize(data) > c.blockLength - 4
    requires |memory| == HybridSize(c, PayloadSize(data))
    ensures |memory| == RsaSize(c, PayloadSize(data), wantKey)
    ensures var plain := if data.Some? then data.value else [];
            var body := HybridBody(c, memory, plain, aes, nonce);
            var x := c.encrypt(body[..c.blockLength]);
            RsaEncode(c, memory, data, aes, nonce, wantKey) ==
            if x.None? then None
            else Some(memory[..8] + [0x52, 0x53, 0x41, 0x2b] + LowFirst(|memory|) + x.value + body[c.blockLength..])
  {
    var plain := if data.Some? then data.value else [];
    var b, body := RsaAesBlock(c, memory, aes, nonce, plain), HybridBody(c, memory, plain, aes, nonce);
    HybridForm(c, memory, data, aes, nonce, wantKey);
    HybridParts(c, memory, b, plain, aes, nonce);
    assert PACKET_SIZE == 12 && c.blockLength >= 64;
    hide *;
    BlockImage(c, b, memory[..8] + [0x52, 0x53, 0x41, 0x2b], body);
  }

  lemma HybridForm(c: Suite, memory: seq<Byte>, data: Option<seq<Byte>>, aes: Key, nonce: seq<Byte>, wantKey: bool)
    requires RsaLaw(c) && GcmLaw(c) && |aes| == 32 && |nonce| == 12
    requires wantKey || PayloadSize(data) > c.blockLength - 4
    requires |memory| == HybridSize(c, PayloadSize(data))
    ensures |memory| == RsaSize(c, PayloadSize(data), wantKey)
    ensures var e := Encrypted(c, RsaAesBlock(c, memory, aes, nonce, if data.Some? then data.value else []));
            RsaEncode(c, memory, data, aes, nonce, wantKey) ==
            if e.None? then None else Some(PutWord(e.value, PACKET_SIZE, |memory|))
  {
  }

  lemma HybridParts(c: Suite, memory: seq<Byte>, b: seq<Byte>, data: seq<Byte>, aes: Key, nonce: seq<Byte>)
    requires GcmLaw(c) && |aes| == 32 && |nonce| == 12 && 80 + |data| <= |memory| < ULONG_RANGE
    requires b == RsaAesBlock(c, memory, aes, nonce, data)
    ensures |b| == |memory| && b[..12] == memory[..8] + [0x52, 0x53, 0x41, 0x2b]
    ensures b[16..] == HybridBody(c, memory, data, aes, nonce)
  {
    var s, n, keyed := c.seal(aes, nonce, data), |data|, Put(memory, 48, aes);
    var z := if data == [] then keyed else AesSealed(c, keyed, aes, nonce, data, 80);
    Magics();
    FourBytes(n);
    PutIs(memory, 48, aes);
    assert |s.tag| == 16 && |s.cipher| == n;
    HeadParts(z, b, LittleEndian(E_RSA_AES, 4), HighFirst(n));
    if data != [] {
      SealedParts(keyed, z, nonce, s.tag, 80, s.cipher);
    }
    hide Put, HighFirst, LittleEndian, GcmLaw, AesSealed, RsaAesBlock;
    HybridSlices(memory, keyed, z, aes, n);
    Joined(HighFirst(n), if n > 0 then nonce + s.tag + aes + s.cipher else memory[20..48] + aes, memory[80 + n..]);
  }

  lemma Joined(a: seq<Byte>, b: seq<Byte>, c: seq<Byte>)
    ensures a + (b + c) == a + b + c
  {
  }

  lemma HybridSlices(memory: seq<Byte>, keyed: seq<Byte>, z: seq<Byte>, aes: Key, n: nat)
    requires |aes| == 32 && 80 + n <= |memory| == |keyed| == |z|
    requires keyed[..48] == memory[..48] && keyed[48..80] == aes && keyed[80..] == memory[80..]
    ensures keyed[..8] == memory[..8] && keyed[80 + n..] == memory[80 + n..]
    ensures keyed[20..] == memory[20..48] + aes + memory[80..]
    ensures z[..20] == keyed[..20] ==> z[..8] == memory[..8]
  {
    assert keyed[..8] == keyed[..48][..8] == memory[..48][..8];
    assert keyed[80 + n..] == keyed[80..][n..] == memory[80..][n..];
    assert keyed[20..] == keyed[20..48] + keyed[48..80] + keyed[80..] && keyed[20..48] == keyed[..48][20..];
    assert memory[20..48] == memory[..48][20..];
    if z[..20] == keyed[..20] {
      assert z[..8] == z[..20][..8] == keyed[..20][..8];
    }
  }

  // ---- Diffie-Hellman ----------------------------------------------------------------

  /** "ECDH", and behind the sizes, the nonce and the tag the exported public key and the ciphertext. Without
      a payload the nonce and the tag stay what the memory held. */
  lemma DhImage(c: Suite, memory: seq<Byte>, peer: seq<Byte>, x: nat, data: seq<Byte>, nonce: seq<Byte>)
    requires GcmLaw(c) && |nonce| == 12 && |memory| == 48 + |c.dhPublic(x)| + |data| < ULONG_RANGE
    ensures |memory| == DhSize(c, x, |data|)
    ensures var key, blob, n := c.agree(x, peer), c.dhPublic(x), |data|;
            DhEncode(c, memory, peer, x, data, nonce) ==
            if key.None? then None
            else
              var s := c.seal(key.value, nonce, data);
              Some((memory[..8] + [0x45, 0x43, 0x44, 0x48] + LowFirst(|memory|) + LowFirst(n)
                    + (if n > 0 then nonce + s.tag + blob + s.cipher else memory[20..48] + blob), key.value))
  {
    var key := c.agree(x, peer);
    if key.Some? {
      DhParts(c, memory, key.value, c.dhPublic(x), data, nonce);
    }
  }

  lemma DhParts(c: Suite, memory: seq<Byte>, key: Key, blob: seq<Byte>, data: seq<Byte>, nonce: seq<Byte>)
    requires GcmLaw(c) && |nonce| == 12 && |memory| == 48 + |blob| + |data| < ULONG_RANGE
    ensures var s, n, exported := c.seal(key, nonce, data), |data|, Put(memory, 48, blob);
            var z := if data == [] then exported else AesSealed(c, exported, key, nonce, data, 48 + |blob|);
            PutWord(PutWord(PutWord(z, MAGIC, E_ECDH), DATA_SIZE, n), PACKET_SIZE, |memory|) ==
            memory[..8] + [0x45, 0x43, 0x44, 0x48] + LowFirst(|memory|) + LowFirst(n)
            + (if n > 0 then nonce + s.tag + blob + s.cipher else memory[20..48] + blob)
  {
    var s, n, exported := c.seal(key, nonce, data), |data|, Put(memory, 48, blob);
    var z := if data == [] then exported else AesSealed(c, exported, key, nonce, data, 48 + |blob|);
    var b := Put(Put(z, 8, LittleEndian(E_ECDH, 4)), 16, LittleEndian(n, 4));
    Magics();
    FourBytes(n);
    FourBytes(|memory|);
    PutIs(memory, 48, blob);
    assert |s.tag| == 16 && |s.cipher| == n;
    HeadParts(z, b, LittleEndian(E_ECDH, 4), LittleEndian(n, 4));
    if data != [] {
      SealedParts(exported, z, nonce, s.tag, 48 + |blob|, s.cipher);
    }
    hide Put, LowFirst, LittleEndian, GcmLaw, AesSealed;
    DhSlices(memory, exported, z, blob, n);
    SizePut(b, LittleEndian(|memory|, 4));
  }

  lemma SizePut(b: seq<Byte>, w: seq<Byte>)
    requires |w| == 4 && 16 <= |b|
    ensures Put(b, 12, w) == b[..12] + w + b[16..]
  {
  }

  lemma DhSlices(memory: seq<Byte>, exported: seq<Byte>, z: seq<Byte>, blob: seq<Byte>, n: nat)
    requires 48 + |blob| + n == |memory| == |exported| == |z|
    requires exported[..48] == memory[..48] && exported[48..48 + |blob|] == blob
    ensures exported[..8] == memory[..8] && exported[48 + |blob| + n..] == []
    ensures n == 0 ==> exported[20..] == memory[20..48] + blob
    ensures z[..20] == exported[..20] ==> z[..8] == memory[..8]
  {
    assert exported[..8] == exported[..48][..8] == memory[..48][..8];
    assert memory[20..48] == memory[..48][20..] && exported[20..48] == exported[..48][20..];
    if n == 0 {
      assert exported[20..] == exported[20..48] + exported[48..48 + |blob|];
    }
    if z[..20] == exported[..20] {
      assert z[..8] == z[..20][..8] == exported[..20][..8];
    }
  }

  // ---- What the decoders accept ------------------------------------------------------

  /** `AES_Decode` opens exactly a packet of more than 48 bytes that reads "AES*", whose data size is the rest,
      and whose tag authenticates the ciphertext; the plaintext takes its place. */
  lemma AesAccepts(c: Suite, img: seq<Byte>, key: Key)
    requires GcmLaw(c) && SizeValid(img)
    ensures var p := if |img| >= 48 then c.open(key, img[20..32], img[32..48], img[48..]) else None;
            var (r, o) := AesDecode(c, img, key);
            && (o.Decoded? <==> |img| > 48 && img[8..12] == [0x41, 0x45, 0x53, 0x2a]
                                && img[16..20] == LowFirst(|img| - 48)
                                && p.Some?)
            && (o.Decoded? ==> o == Decoded(48, |img| - 48, None) && r == img[..48] + p.value)
            && (!o.Decoded? ==> r == img)
  {
    if |img| > 48 {
      WordReads(img, 8, E_AES);
      WordReads(img, 16, |img| - 48);
      Magics();
      FourBytes(E_AES);
      assert Get(img, BUF, |img| - BUF) == img[48..];
      hide LowFirst, LittleEndian, FromLittleEndian, Word;
      var p := c.open(key, img[20..32], img[32..48], img[48..]);
      if p.Some? {
        assert Put(img, BUF, p.value) == img[..48] + p.value;
      }
    }
  }

  lemma WordReads(img: seq<Byte>, at: nat, n: nat)
    requires at + 4 <= |img| && n < ULONG_RANGE
    ensures Word(img, at) == n <==> img[at..at + 4] == LowFirst(n)
  {
    FourBytesBack(img[at..at + 4]);
    hide LowFirst, FromLittleEndian;
    SameWord(Word(img, at), n);
  }

  lemma SameWord(a: nat, b: nat)
    requires a < ULONG_RANGE && b < ULONG_RANGE
    ensures LowFirst(a) == LowFirst(b) <==> a == b
    ensures HighFirst(a) == HighFirst(b) <==> a == b
  {
    FourBytes(a);
    FourBytes(b);
    Word32(a);
    Word32(b);
    hide LowFirst, HighFirst, LittleEndian, FromLittleEndian;
  }

  lemma SwappedReads(img: seq<Byte>, n: nat)
    requires 20 <= |img| && n < ULONG_RANGE && img[16..20] == HighFirst(n)
    ensures FromLittleEndian(Reversed(Get(img, DATA_SIZE, 4))) == n
  {
    FourBytes(n);
    Word32(n);
    var b := LittleEndian(n, 4);
    assert Reversed(Reversed(b)) == b;
    assert Get(img, DATA_SIZE, 4) == img[16..20];
    hide LittleEndian, FromLittleEndian, HighFirst, LowFirst, Reversed;
  }

  /** The image with its block decrypted, if it has one and the provider decrypts it. */
  function Opened(c: Suite, img: seq<Byte>): Option<seq<Byte>> {
    if |img| < 16 + c.blockLength then None
    else
      var y := c.decrypt(img[16..16 + c.blockLength]);
      if y.None? then None else Some(img[..16] + y.value + img[16 + c.blockLength..])
  }

  lemma OpenedIs(c: Suite, img: seq<Byte>)
    requires RsaLaw(c) && SizeValid(img)
    ensures |img| > 16 && (Opened(c, img).Some? ==> |Opened(c, img).value| == |img| >= 80)
    ensures |img| >= 16 + c.blockLength ==> Opened(c, img) == Decrypted(c, img)
    ensures RsaDecode(c, img).1.Decoded? <==> Opened(c, img).Some?
    ensures Opened(c, img).Some? ==> RsaDecode(c, img).0 == Opened(c, img).value
  {
    if |img| >= 16 + c.blockLength {
      assert Get(img, ENCRYPTED, c.blockLength) == img[16..16 + c.blockLength];
      var y := c.decrypt(img[16..16 + c.blockLength]);
      if y.Some? {
        assert Put(img, ENCRYPTED, y.value) == img[..16] + y.value + img[16 + c.blockLength..];
      }
    }
    hide FromLittleEndian, Get, Put;
  }

  /** A packet that reads "RSA*" decodes exactly if its block is there and decrypts; the payload lies behind
      the size, high byte first, that the block begins with. */
  lemma RsaAccepts(c: Suite, img: seq<Byte>, wantKey: bool, n: nat)
    requires Lawful(c) && SizeValid(img) && img[8..12] == [0x52, 0x53, 0x41, 0x2a] && n < ULONG_RANGE
    requires Opened(c, img).Some? && |Opened(c, img).value| >= 20 ==> Opened(c, img).value[16..20] == HighFirst(n)
    ensures var (r, o) := Decode(c, img, RsaPrivate, wantKey);
            && (o.Decoded? <==> Opened(c, img).Some?)
            && (o.Decoded? ==> o == Decoded(20, n, None) && r == Opened(c, img).value)
  {
    KindIs(img);
    OpenedIs(c, img);
    hide Word, RsaLaw, GcmLaw, DhLaw, RsaAesDecode, DhDecode, Opened, FromLittleEndian, HighFirst, Reversed, Get, Put;
    if Opened(c, img).Some? {
      SwappedReads(Opened(c, img).value, n);
    }
  }

  /** Which of the magic numbers an image carries. */
  lemma KindIs(img: seq<Byte>)
    requires |img| >= 12
    ensures Word(img, MAGIC) == E_RSA <==> img[8..12] == [0x52, 0x53, 0x41, 0x2a]
    ensures Word(img, MAGIC) == E_RSA_AES <==> img[8..12] == [0x52, 0x53, 0x41, 0x2b]
    ensures Word(img, MAGIC) == E_ECDH <==> img[8..12] == [0x45, 0x43, 0x44, 0x48]
  {
    Magics();
    FourBytes(E_RSA);
    FourBytes(E_RSA_AES);
    FourBytes(E_ECDH);
    WordReads(img, 8, E_RSA);
    WordReads(img, 8, E_RSA_AES);
    WordReads(img, 8, E_ECDH);
    hide Word, LowFirst, HighFirst, LittleEndian;
  }

  /** A packet that reads "RSA+" decodes exactly if its block decrypts, the size in it fits the packet, and
      the tag authenticates the ciphertext under the key in it. */
  lemma HybridAccepts(c: Suite, img: seq<Byte>, wantKey: bool, n: nat)
    requires Lawful(c) && SizeValid(img) && img[8..12] == [0x52, 0x53, 0x41, 0x2b] && n < ULONG_RANGE
    requires Opened(c, img).Some? && |Opened(c, img).value| >= 20 ==> Opened(c, img).value[16..20] == HighFirst(n)
    ensures var (r, o) := Decode(c, img, RsaPrivate, wantKey);
            if Opened(c, img).None? || |Opened(c, img).value| < 80 + n then !o.Decoded?
            else
              var w := Opened(c, img).value;
              var p := c.open(w[48..80], w[20..32], w[32..48], w[80..80 + n]);
              && (o.Decoded? <==> p.Some?)
              && (o.Decoded? ==>
                    && o == Decoded(80, n, if wantKey then Some(w[48..80]) else None)
                    && r == w[..80] + p.value + w[80 + n..])
  {
    KindIs(img);
    OpenedIs(c, img);
    var y := Opened(c, img);
    if y.Some? {
      SwappedReads(y.value, n);
      HybridOpens(c, img, y.value, n);
    }
    hide Word, RsaLaw, GcmLaw, DhLaw, DhDecode, Opened, FromLittleEndian, HighFirst, Reversed, Get, Put, AesOpened;
  }

  lemma HybridOpens(c: Suite, img: seq<Byte>, w: seq<Byte>, n: nat)
    requires GcmLaw(c) && 80 <= |w| == |img|
    ensures Get(w, AES, KEY_SIZE) == w[48..80]
    ensures 80 + n <= |w| ==>
              var p := c.open(w[48..80], w[20..32], w[32..48], w[80..80 + n]);
              AesOpened(c, w, w[48..80], RSA_AES_DATA, n) ==
              if p.None? then None else Some(w[..80] + p.value + w[80 + n..])
  {
  }

  /** A packet that reads "ECDH" decodes exactly if it is longer than its fields and its payload, the rest is
      a public key that the provider agrees with, and the tag authenticates the payload, if there is one. */
  lemma DhAccepts(c: Suite, img: seq<Byte>, x: nat, wantKey: bool, n: nat)
    requires Lawful(c) && SizeValid(img) && img[8..12] == [0x45, 0x43, 0x44, 0x48] && n < ULONG_RANGE
    requires |img| >= 20 ==> img[16..20] == LowFirst(n)
    ensures var (r, o) := Decode(c, img, DhPrivate(x), wantKey);
            if |img| <= 48 + n then !o.Decoded?
            else
              var at := |img| - n;
              var key := c.agree(x, img[48..at]);
              var p := if key.Some? then c.open(key.value, img[20..32], img[32..48], img[at..]) else None;
              && (o.Decoded? <==> key.Some? && (n == 0 || p.Some?))
              && (o.Decoded? ==>
                    && o == Decoded(at, n, if wantKey then key else None)
                    && r == if n == 0 then img else img[..at] + p.value)
  {
    KindIs(img);
    if |img| >= 20 {
      WordReads(img, 16, n);
    }
    hide Word, RsaLaw, DhLaw, RsaDecode, RsaAesDecode, FromLittleEndian, HighFirst, LowFirst, Reversed;
    if |img| > 48 + n {
      var at := |img| - n;
      assert Get(img, BUF, at - 48) == img[48..at] && Get(img, at, n) == img[at..];
      var key := c.agree(x, img[48..at]);
      if key.Some? {
        var p := c.open(key.value, img[20..32], img[32..48], img[at..]);
        assert p.Some? && |p.value| == n ==> Put(img, at, p.value) == img[..at] + p.value;
      }
    }
  }

  /** Anything else is bad data, and a key of the other kind is refused. */
  lemma OthersRefused(c: Suite, img: seq<Byte>, priv: PrivateKey, wantKey: bool)
    requires Lawful(c) && SizeValid(img)
    ensures var magic := img[8..12];
            var rsa := magic == [0x52, 0x53, 0x41, 0x2a] || magic == [0x52, 0x53, 0x41, 0x2b];
            && (!rsa && magic != [0x45, 0x43, 0x44, 0x48] ==> Decode(c, img, priv, wantKey) == (img, Failed(BadData)))
            && ((rsa && priv.DhPrivate?) || (magic == [0x45, 0x43, 0x44, 0x48] && priv.RsaPrivate?) ==>
                  Decode(c, img, priv, wantKey) == (img, Failed(Refused)))
  {
    KindIs(img);
    hide Word, RsaDecode, RsaAesDecode, DhDecode;
  }
}
