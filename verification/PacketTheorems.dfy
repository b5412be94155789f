/** Decoding undoes encoding, for every payload, key and initial memory content, under the laws
    of the primitives; and exactly when it does not. */
module PacketTheorems {
  import opened Words
  import opened Bytes
  import opened Crypto
  import opened PacketSpec

  // ---- Fields ------------------------------------------------------------------------

  lemma WordPut(img: seq<Byte>, at: nat, x: nat)
    requires at + 4 <= |img| && x < ULONG_RANGE
    ensures Word(PutWord(img, at, x), at) == x
  {
    Word32(x);
    PutThenGet(img, at, LittleEndian(x, 4), at, 4);
    hide Put, Get;
  }

  /** Writing one range leaves the others alone. */
  lemma Apart(img: seq<Byte>, at: nat, bytes: seq<Byte>, from: nat, n: nat)
    requires at + |bytes| <= |img| && from + n <= |img|
    requires from + n <= at || at + |bytes| <= from
    ensures Get(Put(img, at, bytes), from, n) == Get(img, from, n)
  {
    PutThenGet(img, at, bytes, from, n);
  }

  lemma AllApart(img: seq<Byte>, at: nat, bytes: seq<Byte>)
    requires at + |bytes| <= |img|
    ensures forall from: nat, n: nat :: from + n <= |img| && (from + n <= at || at + |bytes| <= from) ==>
              Get(Put(img, at, bytes), from, n) == Get(img, from, n)
  {
    forall from: nat, n: nat | from + n <= |img| && (from + n <= at || at + |bytes| <= from)
      ensures Get(Put(img, at, bytes), from, n) == Get(img, from, n)
    {
      Apart(img, at, bytes, from, n);
    }
  }

  /** The image carries a payload sealed under this key and nonce at `at`. */
  ghost predicate CarriesSealed(c: Suite, img: seq<Byte>, key: Key, nonce: seq<Byte>, data: seq<Byte>, at: nat) {
    && BUF <= at && at + |data| <= |img| && |nonce| == NONCE_SIZE
    && Get(img, NONCE, NONCE_SIZE) == nonce
    && Get(img, TAG, TAG_SIZE) == c.seal(key, nonce, data).tag
    && Get(img, at, |data|) == c.seal(key, nonce, data).cipher
  }

  lemma SealedCarries(c: Suite, img: seq<Byte>, key: Key, nonce: seq<Byte>, data: seq<Byte>, at: nat)
    requires GcmLaw(c) && |nonce| == NONCE_SIZE && BUF <= at && at + |data| <= |img|
    ensures var s := AesSealed(c, img, key, nonce, data, at);
            && CarriesSealed(c, s, key, nonce, data, at)
            && (forall from: nat, n: nat ::
                  from + n <= NONCE || (BUF <= from && from + n <= at) ==> Get(s, from, n) == Get(img, from, n))
  {
    var s := c.seal(key, nonce, data);
    assert |s.tag| == TAG_SIZE && |s.cipher| == |data|;
    hide GcmLaw;
    var a := Put(img, NONCE, nonce);
    var b := Put(a, TAG, s.tag);
    PutThenGet(img, NONCE, nonce, NONCE, NONCE_SIZE);
    PutThenGet(a, TAG, s.tag, TAG, TAG_SIZE);
    PutThenGet(b, at, s.cipher, at, |data|);
    AllApart(img, NONCE, nonce);
    AllApart(a, TAG, s.tag);
    AllApart(b, at, s.cipher);
    hide Put, Get;
  }

  lemma CarriedOpens(c: Suite, img: seq<Byte>, key: Key, nonce: seq<Byte>, data: seq<Byte>, at: nat)
    requires GcmLaw(c) && CarriesSealed(c, img, key, nonce, data, at)
    ensures AesOpened(c, img, key, at, |data|) == Some(Put(img, at, data))
    ensures Get(Put(img, at, data), at, |data|) == data
  {
    PutThenGet(img, at, data, at, |data|);
    hide Put, Get;
  }

  /** Header words below the nonce do not disturb a sealed payload. */
  lemma HeaderKeeps(c: Suite, img: seq<Byte>, at: nat, bytes: seq<Byte>, key: Key, nonce: seq<Byte>, data: seq<Byte>,
                    to: nat)
    requires CarriesSealed(c, img, key, nonce, data, to) && at + |bytes| <= NONCE
    ensures CarriesSealed(c, Put(img, at, bytes), key, nonce, data, to)
  {
    AllApart(img, at, bytes);
    hide Put, Get;
  }

  // ---- AES ---------------------------------------------------------------------------

  /** An AES packet round-trips exactly when it is not empty. */
  lemma AesRoundTrip(c: Suite, img: seq<Byte>, key: Key, nonce: seq<Byte>, data: seq<Byte>)
    requires GcmLaw(c) && |nonce| == NONCE_SIZE && |img| == BUF + |data| < ULONG_RANGE
    ensures var e := AesEncode(c, img, key, nonce, data);
            && SizeValid(e)
            && (Yields(AesDecode(c, e, key), data, None) <==> data != [])
            && (data == [] ==> AesDecode(c, e, key).1 == Failed(BadData))
  {
    var m := PutWord(img, MAGIC, E_AES);
    var d := PutWord(m, DATA_SIZE, |data|);
    var p := PutWord(d, PACKET_SIZE, BUF + |data|);
    WordPut(img, MAGIC, E_AES);
    WordPut(m, DATA_SIZE, |data|);
    WordPut(d, PACKET_SIZE, BUF + |data|);
    AllApart(m, DATA_SIZE, LittleEndian(|data|, 4));
    AllApart(d, PACKET_SIZE, LittleEndian(BUF + |data|, 4));
    SealedCarries(c, p, key, nonce, data, BUF);
    var e := AesEncode(c, img, key, nonce, data);
    CarriedOpens(c, e, key, nonce, data, BUF);
    hide Put, Get, LittleEndian, FromLittleEndian, GcmLaw, AesOpened, AesSealed, CarriesSealed;
  }

  // ---- RSA ---------------------------------------------------------------------------

  /** The RSA block of an image whose `DataSize` is below 2^24 is below the modulus. */
  lemma BlockBelowModulus(c: Suite, img: seq<Byte>, n: nat)
    requires RsaLaw(c) && ENCRYPTED + c.blockLength <= |img| && n < 0x100_0000
    requires Get(img, DATA_SIZE, 4) == Reversed(LittleEndian(n, 4))
    ensures var b := Get(img, ENCRYPTED, c.blockLength);
            BigEndian(b) < Power(c.blockLength - 1) <= c.modulus
  {
    SwappedTop(n);
    var b := Get(img, ENCRYPTED, c.blockLength);
    assert b[0] == Get(img, DATA_SIZE, 4)[0];
    LeadingZero(b);
  }

  lemma PutsCommute(img: seq<Byte>, at: nat, a: seq<Byte>, to: nat, b: seq<Byte>)
    requires at + |a| <= to && to + |b| <= |img|
    ensures Put(Put(img, to, b), at, a) == Put(Put(img, at, a), to, b)
  {
  }

  /** Decrypting restores the whole image, whatever parts of the payload the block overlaps. */
  lemma BlockRestored(c: Suite, img: seq<Byte>, n: nat)
    requires RsaLaw(c) && ENCRYPTED + c.blockLength <= |img| && n < 0x100_0000
    requires Get(img, DATA_SIZE, 4) == Reversed(LittleEndian(n, 4))
    ensures var e := Encrypted(c, img);
            && e.Some?
            && Decrypted(c, PutWord(e.value, PACKET_SIZE, |img|)) == Some(PutWord(img, PACKET_SIZE, |img|))
            && Word(PutWord(e.value, PACKET_SIZE, |img|), MAGIC) == Word(img, MAGIC)
  {
    BlockBelowModulus(c, img, n);
    var b, w := Get(img, ENCRYPTED, c.blockLength), LittleEndian(|img|, 4);
    var x := c.encrypt(b).value;
    assert |x| == |b| && c.decrypt(x) == Some(b);
    hide RsaLaw, BigEndian, LittleEndian;
    var e := Put(img, ENCRYPTED, x);
    PutThenGet(img, ENCRYPTED, x, ENCRYPTED, |x|);
    PutThenGet(img, ENCRYPTED, x, MAGIC, 4);
    PutThenGet(e, PACKET_SIZE, w, ENCRYPTED, |x|);
    PutThenGet(e, PACKET_SIZE, w, MAGIC, 4);
    PutsCommute(e, PACKET_SIZE, w, ENCRYPTED, b);
    PutBack(img, ENCRYPTED, x);
    hide Put, Get, FromLittleEndian;
  }

  /** The encoded image as the decoder sees it after decryption: the block image with its size. */
  lemma RsaDecodes(c: Suite, block: seq<Byte>, n: nat)
    requires RsaLaw(c) && ENCRYPTED + c.blockLength <= |block| < ULONG_RANGE && n < 0x100_0000
    requires Get(block, DATA_SIZE, 4) == Reversed(LittleEndian(n, 4))
    ensures var e := Encrypted(c, block);
            && e.Some?
            && var img := PutWord(e.value, PACKET_SIZE, |block|);
               && SizeValid(img) && Word(img, MAGIC) == Word(block, MAGIC)
               && RsaDecode(c, img) == (PutWord(block, PACKET_SIZE, |block|), Decoded(RSA_DATA, n, None))
  {
    BlockRestored(c, block, n);
    var e := Encrypted(c, block).value;
    var w := LittleEndian(|block|, 4);
    WordPut(e, PACKET_SIZE, |block|);
    PutThenGet(block, PACKET_SIZE, w, DATA_SIZE, 4);
    var s := LittleEndian(n, 4);
    Word32(n);
    assert Reversed(Reversed(s)) == s;
    assert c.blockLength >= 64;
    hide Encrypted, Decrypted, Put, Get, LittleEndian, FromLittleEndian, RsaLaw, Reversed;
  }

  lemma RsaBlockFields(img: seq<Byte>, data: seq<Byte>)
    requires |img| >= RSA_DATA + |data|
    ensures var b := RsaBlock(img, Some(data));
            && Word(b, MAGIC) == E_RSA && Get(b, RSA_DATA, |data|) == data
            && Get(b, DATA_SIZE, 4) == Reversed(LittleEndian(|data|, 4))
  {
    var m := PutWord(img, MAGIC, E_RSA);
    var d := Put(m, RSA_DATA, data);
    var s := Reversed(LittleEndian(|data|, 4));
    WordPut(img, MAGIC, E_RSA);
    PutThenGet(m, RSA_DATA, data, RSA_DATA, |data|);
    PutThenGet(d, DATA_SIZE, s, DATA_SIZE, 4);
    Apart(m, RSA_DATA, data, MAGIC, 4);
    Apart(d, DATA_SIZE, s, MAGIC, 4);
    Apart(d, DATA_SIZE, s, RSA_DATA, |data|);
    assert RsaBlock(img, Some(data)) == Put(d, DATA_SIZE, s);
    hide Put, Get, LittleEndian, FromLittleEndian, Reversed, PutSwapped, RsaBlock;
  }

  /** A short payload in the RSA block alone round-trips, also the empty one. */
  lemma RsaRoundTrip(c: Suite, memory: seq<Byte>, data: seq<Byte>, aes: Key, nonce: seq<Byte>, wantKey: bool)
    requires Lawful(c) && |aes| == KEY_SIZE && |nonce| == NONCE_SIZE && c.blockLength < 0x100_0000
    requires !Hybrid(c, |data|, false) && |memory| == RsaSize(c, |data|, false)
    ensures var e := RsaEncode(c, memory, Some(data), aes, nonce, false);
            e.Some? && SizeValid(e.value) && Yields(Decode(c, e.value, RsaPrivate, wantKey), data, None)
  {
    var b := RsaBlock(memory, Some(data));
    RsaBlockFields(memory, data);
    RsaDecodes(c, b, |data|);
    AllApart(b, PACKET_SIZE, LittleEndian(|memory|, 4));
    hide Put, Get, LittleEndian, FromLittleEndian, Reversed, Encrypted, RsaDecode, RsaLaw, GcmLaw, DhLaw, RsaBlock;
  }

  /** What the decoder sees of a packet made without a payload pointer. */
  lemma NullBlock(c: Suite, memory: seq<Byte>)
    requires RsaLaw(c) && c.blockLength < 0x100_0000 && |memory| == RsaSize(c, 0, false)
    ensures var e, plain := Encrypted(c, RsaBlock(memory, None)),
            PutWord(RsaBlock(memory, None), PACKET_SIZE, |memory|);
            && e.Some?
            && var img := PutWord(e.value, PACKET_SIZE, |memory|);
               && SizeValid(img) && Word(img, MAGIC) == Word(memory, MAGIC)
               && RsaDecode(c, img) == (plain, Decoded(RSA_DATA, 0, None))
               && Get(plain, AES, KEY_SIZE) == Get(memory, AES, KEY_SIZE)
               && Get(plain, NONCE, NONCE_SIZE) == Get(memory, NONCE, NONCE_SIZE)
               && Get(plain, TAG, TAG_SIZE) == Get(memory, TAG, TAG_SIZE)
  {
    var s, w := Reversed(LittleEndian(0, 4)), LittleEndian(|memory|, 4);
    var b := RsaBlock(memory, None);
    PutThenGet(memory, DATA_SIZE, s, DATA_SIZE, 4);
    Apart(memory, DATA_SIZE, s, MAGIC, 4);
    Apart(memory, DATA_SIZE, s, AES, KEY_SIZE);
    Apart(memory, DATA_SIZE, s, NONCE, NONCE_SIZE);
    Apart(memory, DATA_SIZE, s, TAG, TAG_SIZE);
    Apart(b, PACKET_SIZE, w, AES, KEY_SIZE);
    Apart(b, PACKET_SIZE, w, NONCE, NONCE_SIZE);
    Apart(b, PACKET_SIZE, w, TAG, TAG_SIZE);
    RsaDecodes(c, b, 0);
    hide Put, Get, LittleEndian, FromLittleEndian, Reversed, Encrypted, RsaDecode, RsaLaw;
  }

  /** The hybrid block: fields of the image before the block is encrypted. */
  lemma RsaAesBlockFields(c: Suite, img: seq<Byte>, aes: Key, nonce: seq<Byte>, data: seq<Byte>)
    requires GcmLaw(c) && |aes| == KEY_SIZE && |nonce| == NONCE_SIZE && |img| >= RSA_AES_DATA + |data|
    ensures var b := RsaAesBlock(c, img, aes, nonce, data);
            && Word(b, MAGIC) == E_RSA_AES && Get(b, AES, KEY_SIZE) == aes
            && Get(b, DATA_SIZE, 4) == Reversed(LittleEndian(|data|, 4))
            && (data != [] ==> CarriesSealed(c, b, aes, nonce, data, RSA_AES_DATA))
            && (data == [] ==>
                    Get(b, NONCE, NONCE_SIZE) == Get(img, NONCE, NONCE_SIZE)
                    && Get(b, TAG, TAG_SIZE) == Get(img, TAG, TAG_SIZE))
  {
    var keyed := Put(img, AES, aes);
    PutThenGet(img, AES, aes, AES, KEY_SIZE);
    AllApart(img, AES, aes);
    SealedCarries(c, keyed, aes, nonce, data, RSA_AES_DATA);
    var sealed := if data == [] then keyed else AesSealed(c, keyed, aes, nonce, data, RSA_AES_DATA);
    var w, s := LittleEndian(E_RSA_AES, 4), Reversed(LittleEndian(|data|, 4));
    var m := Put(sealed, MAGIC, w);
    WordPut(sealed, MAGIC, E_RSA_AES);
    AllApart(sealed, MAGIC, w);
    AllApart(m, DATA_SIZE, s);
    PutThenGet(m, DATA_SIZE, s, DATA_SIZE, 4);
    if data != [] {
      HeaderKeeps(c, sealed, MAGIC, w, aes, nonce, data, RSA_AES_DATA);
      HeaderKeeps(c, m, DATA_SIZE, s, aes, nonce, data, RSA_AES_DATA);
    }
    hide Put, Get, LittleEndian, FromLittleEndian, Reversed, GcmLaw, AesSealed, CarriesSealed;
  }

  /** The decoder after RSA, given the image it recovered. */
  lemma RsaAesOpens(c: Suite, img: seq<Byte>, plain: seq<Byte>, n: nat, keep: bool)
    requires Lawful(c) && SizeValid(img) && Word(img, MAGIC) == E_RSA_AES
    requires RsaDecode(c, img) == (plain, Decoded(RSA_DATA, n, None)) && RSA_AES_DATA + n <= |img|
    ensures var key := Get(plain, AES, KEY_SIZE);
            var clear := AesOpened(c, plain, key, RSA_AES_DATA, n);
            Decode(c, img, RsaPrivate, keep) ==
            if clear.Some? then (clear.value, Decoded(RSA_AES_DATA, n, if keep then Some(key) else None))
                else (plain, Failed(Refused))
  {
    hide RsaDecode, AesOpened, Get, RsaLaw, GcmLaw, DhLaw;
  }

  /** A null payload pointer leaves the magic unset, so the packet keeps what the memory held. It
      decodes to the empty payload exactly if that happens to be the magic of the RSA form, or
      that of the hybrid form with a nonce and tag that open under the key bytes found there. */
  lemma NullPayloadIff(c: Suite, memory: seq<Byte>, aes: Key, nonce: seq<Byte>, keep: bool)
    requires Lawful(c) && |aes| == KEY_SIZE && |nonce| == NONCE_SIZE && c.blockLength < 0x100_0000
    requires |memory| == RsaSize(c, 0, false)
    ensures var e := RsaEncode(c, memory, None, aes, nonce, false);
            && e.Some? && SizeValid(e.value)
            && var o := Decode(c, e.value, RsaPrivate, keep).1;
               (o.Decoded? && o.cb == 0 <==>
                 || Word(memory, MAGIC) == E_RSA
                 || (Word(memory, MAGIC) == E_RSA_AES
                     && c.open(Get(memory, AES, KEY_SIZE), Get(memory, NONCE, NONCE_SIZE), Get(memory, TAG, TAG_SIZE),
                         []).Some?))
  {
    NullBlock(c, memory);
    var b := RsaBlock(memory, None);
    var img := PutWord(Encrypted(c, b).value, PACKET_SIZE, |memory|);
    var plain := PutWord(b, PACKET_SIZE, |memory|);
    assert Get(plain, RSA_AES_DATA, 0) == [];
    hide Put, Get, LittleEndian, FromLittleEndian, Encrypted, RsaDecode, RsaLaw, DhLaw, RsaBlock;
    if Word(memory, MAGIC) == E_RSA_AES {
      RsaAesOpens(c, img, plain, 0, keep);
      hide Word;
    }
  }

  /** RSA with AES round-trips, key included, exactly when the payload is not empty or the
      nonce and tag that happen to lie in the memory authenticate the empty message: the encoder
      skips AES for an empty payload and the decoder does not. */
  lemma RsaAesRoundTrip(c: Suite, memory: seq<Byte>, data: Option<seq<Byte>>, aes: Key, nonce: seq<Byte>,
                        wantKey: bool, keep: bool)
    requires Lawful(c) && |aes| == KEY_SIZE && |nonce| == NONCE_SIZE && c.blockLength < 0x100_0000
    requires PayloadSize(data) < 0x100_0000 && Hybrid(c, PayloadSize(data), wantKey)
    requires |memory| == RsaSize(c, PayloadSize(data), wantKey)
    ensures var e := RsaEncode(c, memory, data, aes, nonce, wantKey);
            var payload := if data.Some? then data.value else [];
            && e.Some? && SizeValid(e.value)
            && (Yields(Decode(c, e.value, RsaPrivate, keep), payload, if keep then Some(aes) else None)
                <==> payload != [] || c.open(aes, Get(memory, NONCE, NONCE_SIZE), Get(memory, TAG, TAG_SIZE), []).Some?)
  {
    var payload := if data.Some? then data.value else [];
    var b := RsaAesBlock(c, memory, aes, nonce, payload);
    RsaAesBlockFields(c, memory, aes, nonce, payload);
    RsaDecodes(c, b, |payload|);
    var w := LittleEndian(|memory|, 4);
    var plain := PutWord(b, PACKET_SIZE, |b|);
    Apart(b, PACKET_SIZE, w, AES, KEY_SIZE);
    Apart(b, PACKET_SIZE, w, NONCE, NONCE_SIZE);
    Apart(b, PACKET_SIZE, w, TAG, TAG_SIZE);
    var img := RsaEncode(c, memory, data, aes, nonce, wantKey).value;
    RsaAesOpens(c, img, plain, |payload|, keep);
    hide RsaBlock, RsaAesBlock, Encrypted, RsaDecode, RsaLaw, DhLaw, Decode, RsaEncode, SizeValid, Word;
    if payload != [] {
      HeaderKeeps(c, b, PACKET_SIZE, w, aes, nonce, payload, RSA_AES_DATA);
      CarriedOpens(c, plain, aes, nonce, payload, RSA_AES_DATA);
      hide AesOpened, Put, Get, GcmLaw, CarriesSealed, LittleEndian;
    } else {
      assert Get(plain, RSA_AES_DATA, 0) == [];
      hide Put, Get, LittleEndian;
    }
  }

  // ---- Diffie-Hellman ----------------------------------------------------------------

  lemma DhFields(c: Suite, memory: seq<Byte>, peer: seq<Byte>, x: nat, data: seq<Byte>, nonce: seq<Byte>)
    requires GcmLaw(c) && |nonce| == NONCE_SIZE && |memory| == DhSize(c, x, |data|) < ULONG_RANGE
    requires c.agree(x, peer).Some?
    ensures var (e, key) := DhEncode(c, memory, peer, x, data, nonce).value;
            var blob := c.dhPublic(x);
            && SizeValid(e) && Word(e, MAGIC) == E_ECDH && Word(e, DATA_SIZE) == |data|
            && Get(e, BUF, |blob|) == blob
            && (data != [] ==> CarriesSealed(c, e, key, nonce, data, BUF + |blob|))
  {
    var blob, key, n, size := c.dhPublic(x), c.agree(x, peer).value, |data|, |memory|;
    var exported := Put(memory, BUF, blob);
    PutThenGet(memory, BUF, blob, BUF, |blob|);
    SealedCarries(c, exported, key, nonce, data, BUF + |blob|);
    var sealed := if data == [] then exported else AesSealed(c, exported, key, nonce, data, BUF + |blob|);
    assert Get(sealed, BUF, |blob|) == blob;
    var m, w0, w1, w2 := PutWord(sealed, MAGIC, E_ECDH), LittleEndian(E_ECDH, 4), LittleEndian(n, 4),
        LittleEndian(size, 4);
    var d := PutWord(m, DATA_SIZE, n);
    WordPut(sealed, MAGIC, E_ECDH);
    WordPut(m, DATA_SIZE, n);
    WordPut(d, PACKET_SIZE, size);
    Apart(sealed, MAGIC, w0, BUF, |blob|);
    Apart(m, DATA_SIZE, w1, BUF, |blob|);
    Apart(m, DATA_SIZE, w1, MAGIC, 4);
    Apart(d, PACKET_SIZE, w2, BUF, |blob|);
    Apart(d, PACKET_SIZE, w2, MAGIC, 4);
    Apart(d, PACKET_SIZE, w2, DATA_SIZE, 4);
    if data != [] {
      HeaderKeeps(c, sealed, MAGIC, w0, key, nonce, data, BUF + |blob|);
      HeaderKeeps(c, m, DATA_SIZE, w1, key, nonce, data, BUF + |blob|);
      HeaderKeeps(c, d, PACKET_SIZE, w2, key, nonce, data, BUF + |blob|);
    }
    assert DhEncode(c, memory, peer, x, data, nonce).value == (PutWord(d, PACKET_SIZE, size), key);
    hide Put, Get, LittleEndian, FromLittleEndian, GcmLaw, AesSealed, CarriesSealed, DhEncode;
  }

  /** Diffie-Hellman round-trips every payload, the empty one included, and both sides end up
      with the same key. */
  lemma DhRoundTrip(c: Suite, memory: seq<Byte>, x: nat, y: nat, data: seq<Byte>, nonce: seq<Byte>, keep: bool)
    requires Lawful(c) && |nonce| == NONCE_SIZE && |memory| == DhSize(c, x, |data|) < ULONG_RANGE
    ensures var e := DhEncode(c, memory, c.dhPublic(y), x, data, nonce);
            && e.Some? && SizeValid(e.value.0)
            && Yields(Decode(c, e.value.0, DhPrivate(y), keep), data, if keep then Some(e.value.1) else None)
  {
    var blob, peer := c.dhPublic(x), c.dhPublic(y);
    assert c.agree(x, peer).Some? && c.agree(y, blob) == c.agree(x, peer) && |blob| > 0;
    var (img, key) := DhEncode(c, memory, peer, x, data, nonce).value;
    DhFields(c, memory, peer, x, data, nonce);
    assert key == c.agree(x, peer).value;
    hide DhEncode, DhLaw, RsaLaw, GcmLaw, SizeValid, CarriesSealed, Get, Put, AesOpened, Yields;
    DhOpens(c, img, key, blob, y, data, nonce, keep);
  }

  /** The decoder on a packet with these fields. */
  lemma DhOpens(c: Suite, img: seq<Byte>, key: Key, blob: seq<Byte>, y: nat, data: seq<Byte>, nonce: seq<Byte>,
                keep: bool)
    requires Lawful(c) && SizeValid(img) && |img| == BUF + |blob| + |data|
    requires Word(img, MAGIC) == E_ECDH && Word(img, DATA_SIZE) == |data|
    requires Get(img, BUF, |blob|) == blob != [] && c.agree(y, blob) == Some(key)
    requires data != [] ==> CarriesSealed(c, img, key, nonce, data, BUF + |blob|)
    ensures Yields(Decode(c, img, DhPrivate(y), keep), data, if keep then Some(key) else None)
  {
    assert Decode(c, img, DhPrivate(y), keep) == DhDecode(c, img, y, keep);
    hide Decode, DhLaw, RsaLaw, SizeValid;
    if data != [] {
      CarriedOpens(c, img, key, nonce, data, BUF + |blob|);
      hide AesOpened, Put, Get, GcmLaw, CarriesSealed;
    } else {
      hide Put, GcmLaw;
    }
  }
}
