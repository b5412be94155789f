/** `UH_PACKET`: the overlapping layout and every encoder and decoder, as functions of the
    packet's byte image. */
module PacketSpec {
  import opened Words
  import opened Bytes
  import opened Crypto

  const MAGIC: nat := 8
  const PACKET_SIZE: nat := 12
  /** Start of the RSA block, and of `DataSize` inside it. */
  const ENCRYPTED: nat := 16
  const DATA_SIZE: nat := 16
  const RSA_DATA: nat := 20
  const NONCE: nat := 20
  const TAG: nat := 32
  const BUF: nat := 48
  const AES: nat := 48
  const RSA_AES_DATA: nat := 80

  const E_ECDH: nat := 0x48444345
  const E_RSA: nat := 0x2a415352
  const E_RSA_AES: nat := 0x2b415352
  const E_AES: nat := 0x2a534541

  datatype Failure = BadData | Refused | OutOfPacket

  /** Where the payload lies after decoding, and the key handed to the caller. */
  datatype Outcome = Failed(why: Failure) | Decoded(at: nat, cb: nat, key: Option<Key>)

  datatype PrivateKey = RsaPrivate | DhPrivate(x: nat)

  function Word(img: seq<Byte>, at: nat): nat
    requires at + 4 <= |img|
  {
    FromLittleEndian(Get(img, at, 4))
  }

  function PutWord(img: seq<Byte>, at: nat, x: nat): (r: seq<Byte>)
    requires at + 4 <= |img|
    ensures |r| == |img|
  {
    Put(img, at, LittleEndian(x, 4))
  }

  function PutSwapped(img: seq<Byte>, at: nat, x: nat): (r: seq<Byte>)
    requires at + 4 <= |img|
    ensures |r| == |img|
  {
    Put(img, at, Reversed(LittleEndian(x, 4)))
  }

  /** `IsSizeValid` for a datagram that is the whole image. */
  predicate SizeValid(img: seq<Byte>) {
    ENCRYPTED < |img| < ULONG_RANGE && Word(img, PACKET_SIZE) == |img|
  }

  // ---- AES ---------------------------------------------------------------------------

  /** `AES_Encode_I`: nonce, tag and ciphertext into the image. */
  ghost function AesSealed(c: Suite, img: seq<Byte>, key: Key, nonce: seq<Byte>, data: seq<Byte>,
                           at: nat)
    : (r: seq<Byte>)
    requires GcmLaw(c) && |nonce| == NONCE_SIZE && BUF <= at && at + |data| <= |img|
    ensures |r| == |img|
  {
    var s := c.seal(key, nonce, data);
    Put(Put(Put(img, NONCE, nonce), TAG, s.tag), at, s.cipher)
  }

  /** `AES_Decode_I`: the image with the plaintext in place of the ciphertext. */
  ghost function AesOpened(c: Suite, img: seq<Byte>, key: Key, at: nat, cb: nat): (r: Option<seq<Byte>>)
    requires GcmLaw(c) && BUF <= at && at + cb <= |img|
    ensures r.Some? ==> |r.value| == |img|
  {
    var p := c.open(key, Get(img, NONCE, NONCE_SIZE), Get(img, TAG, TAG_SIZE), Get(img, at, cb));
    if p.Some? then Some(Put(img, at, p.value)) else None
  }

  ghost function AesEncode(c: Suite, img: seq<Byte>, key: Key, nonce: seq<Byte>, data: seq<Byte>): (r: seq<Byte>)
    requires GcmLaw(c) && |nonce| == NONCE_SIZE && |img| == BUF + |data|
    ensures |r| == |img|
  {
    AesSealed(c, PutWord(PutWord(PutWord(img, MAGIC, E_AES), DATA_SIZE, |data|), PACKET_SIZE, BUF + |data|),
              key, nonce, data, BUF)
  }

  ghost function AesDecode(c: Suite, img: seq<Byte>, key: Key): (r: (seq<Byte>, Outcome))
    requires GcmLaw(c) && SizeValid(img)
  {
    var cb := Word(img, PACKET_SIZE);
    if BUF < cb && Word(img, MAGIC) == E_AES && cb - BUF == Word(img, DATA_SIZE) then
      var clear := AesOpened(c, img, key, BUF, cb - BUF);
      if clear.Some? then (clear.value, Decoded(BUF, cb - BUF, None)) else (img, Failed(Refused))
    else (img, Failed(BadData))
  }

  // ---- RSA ---------------------------------------------------------------------------

  /** The RSA block encrypted in place. */
  ghost function Encrypted(c: Suite, img: seq<Byte>): (r: Option<seq<Byte>>)
    requires RsaLaw(c) && ENCRYPTED + c.blockLength <= |img|
    ensures r.Some? ==> |r.value| == |img|
  {
    var x := c.encrypt(Get(img, ENCRYPTED, c.blockLength));
    if x.Some? then Some(Put(img, ENCRYPTED, x.value)) else None
  }

  ghost function Decrypted(c: Suite, img: seq<Byte>): (r: Option<seq<Byte>>)
    requires RsaLaw(c) && ENCRYPTED + c.blockLength <= |img|
    ensures r.Some? ==> |r.value| == |img|
  {
    var x := c.decrypt(Get(img, ENCRYPTED, c.blockLength));
    if x.Some? then Some(Put(img, ENCRYPTED, x.value)) else None
  }

  /** Whether the payload is sealed with a fresh AES key instead of put in the block. */
  predicate Hybrid(c: Suite, cb: nat, wantKey: bool)
    requires c.blockLength >= 64
  {
    wantKey || c.blockLength - 4 < cb
  }

  function RsaSize(c: Suite, cb: nat, wantKey: bool): (n: nat)
    requires c.blockLength >= 64
    ensures n >= ENCRYPTED + c.blockLength >= RSA_AES_DATA
    ensures Hybrid(c, cb, wantKey) ==> n >= RSA_AES_DATA + cb
    ensures !Hybrid(c, cb, wantKey) ==> n >= RSA_DATA + cb
  {
    var least := ENCRYPTED + c.blockLength;
    if Hybrid(c, cb, wantKey) && RSA_AES_DATA + cb >= least then RSA_AES_DATA + cb else least
  }

  /** The image before the block is encrypted. A null payload pointer leaves the magic unset. */
  function RsaBlock(img: seq<Byte>, data: Option<seq<Byte>>): (r: seq<Byte>)
    requires |img| >= RSA_DATA + if data.Some? then |data.value| else 0
    ensures |r| == |img|
  {
    if data.Some?
    then PutSwapped(Put(PutWord(img, MAGIC, E_RSA), RSA_DATA, data.value), DATA_SIZE, |data.value|)
    else PutSwapped(img, DATA_SIZE, 0)
  }

  ghost function RsaAesBlock(c: Suite, img: seq<Byte>, aes: Key, nonce: seq<Byte>, data: seq<Byte>): (r: seq<Byte>)
    requires GcmLaw(c) && |aes| == KEY_SIZE && |nonce| == NONCE_SIZE && |img| >= RSA_AES_DATA + |data|
    ensures |r| == |img|
  {
    var keyed := Put(img, AES, aes);
    var sealed := if data == [] then keyed else AesSealed(c, keyed, aes, nonce, data, RSA_AES_DATA);
    PutSwapped(PutWord(sealed, MAGIC, E_RSA_AES), DATA_SIZE, |data|)
  }

  function PayloadSize(data: Option<seq<Byte>>): nat {
    if data.Some? then |data.value| else 0
  }

  /** `RSA_Encode` over freshly allocated memory; the randomness is a parameter. */
  ghost function RsaEncode(c: Suite, memory: seq<Byte>, data: Option<seq<Byte>>, aes: Key, nonce: seq<Byte>,
                           wantKey: bool)
    : (r: Option<seq<Byte>>)
    requires RsaLaw(c) && GcmLaw(c) && |aes| == KEY_SIZE && |nonce| == NONCE_SIZE
    requires |memory| == RsaSize(c, PayloadSize(data), wantKey)
    ensures r.Some? ==> |r.value| == |memory|
  {
    var block :=
      if Hybrid(c, PayloadSize(data), wantKey) then RsaAesBlock(c, memory, aes, nonce, if data.Some? then data.value
          else [])
      else RsaBlock(memory, data);
    var e := Encrypted(c, block);
    if e.Some? then Some(PutWord(e.value, PACKET_SIZE, |memory|)) else None
  }

  /** `RSA_Decode`: the swapped size is returned unchecked. */
  ghost function RsaDecode(c: Suite, img: seq<Byte>): (r: (seq<Byte>, Outcome))
    requires RsaLaw(c) && SizeValid(img)
    ensures |r.0| == |img|
    ensures r.1.Decoded? ==> |img| >= ENCRYPTED + c.blockLength
  {
    if ENCRYPTED + c.blockLength > Word(img, PACKET_SIZE) then (img, Failed(BadData))
    else
      var d := Decrypted(c, img);
      if d.None? then (img, Failed(Refused))
      else (d.value, Decoded(RSA_DATA, FromLittleEndian(Reversed(Get(d.value, DATA_SIZE, 4))), None))
  }

  ghost function RsaAesDecode(c: Suite, img: seq<Byte>, wantKey: bool): (r: (seq<Byte>, Outcome))
    requires RsaLaw(c) && GcmLaw(c) && SizeValid(img)
  {
    var (plain, o) := RsaDecode(c, img);
    if o.Failed? then (plain, o)
    else if RSA_AES_DATA + o.cb > Word(img, PACKET_SIZE) then (plain, Failed(BadData))
    else
      var key := Get(plain, AES, KEY_SIZE);
      var clear := AesOpened(c, plain, key, RSA_AES_DATA, o.cb);
      if clear.Some? then (clear.value, Decoded(RSA_AES_DATA, o.cb, if wantKey then Some(key) else None))
      else (plain, Failed(Refused))
  }

  // ---- Diffie-Hellman ----------------------------------------------------------------

  function DhSize(c: Suite, x: nat, cb: nat): (n: nat)
    ensures n >= BUF + cb
  {
    BUF + |c.dhPublic(x)| + cb
  }

  /** `DH_Encode` to a peer, with the fresh private key x: the image and the session key. */
  ghost function DhEncode(c: Suite, memory: seq<Byte>, peer: seq<Byte>, x: nat, data: seq<Byte>, nonce: seq<Byte>)
    : (r: Option<(seq<Byte>, Key)>)
    requires GcmLaw(c) && |nonce| == NONCE_SIZE && |memory| == DhSize(c, x, |data|)
  {
    var blob := c.dhPublic(x);
    var exported := Put(memory, BUF, blob);
    var key := c.agree(x, peer);
    if key.None? then None
    else
      var sealed := if data == [] then exported else AesSealed(c, exported, key.value, nonce, data, BUF + |blob|);
      Some((PutWord(PutWord(PutWord(sealed, MAGIC, E_ECDH), DATA_SIZE, |data|), PACKET_SIZE, |memory|), key.value))
  }

  /** `DH_Decode`: below 48 bytes the size wraps and the code reads past the packet. */
  ghost function DhDecode(c: Suite, img: seq<Byte>, x: nat, wantKey: bool): (r: (seq<Byte>, Outcome))
    requires GcmLaw(c) && SizeValid(img)
  {
    if |img| < BUF then (img, Failed(OutOfPacket))
    else
      var total, cb := |img| - BUF, Word(img, DATA_SIZE);
      if cb >= total then (img, Failed(BadData))
      else
        var key := c.agree(x, Get(img, BUF, total - cb));
        var at := BUF + total - cb;
        if key.None? then (img, Failed(Refused))
        else
          var out := Decoded(at, cb, if wantKey then key else None);
          if cb == 0 then (img, out)
          else
            var clear := AesOpened(c, img, key.value, at, cb);
            if clear.Some? then (clear.value, out) else (img, Failed(Refused))
  }

  // ---- Dispatch ----------------------------------------------------------------------

  /** `Decode`: by the magic; a key of the other kind is refused by the provider. */
  ghost function Decode(c: Suite, img: seq<Byte>, priv: PrivateKey, wantKey: bool): (r: (seq<Byte>, Outcome))
    requires Lawful(c) && SizeValid(img)
  {
    var magic := Word(img, MAGIC);
    if magic == E_RSA then
      if priv.RsaPrivate? then RsaDecode(c, img) else (img, Failed(Refused))
    else if magic == E_RSA_AES then
      if priv.RsaPrivate? then RsaAesDecode(c, img, wantKey) else (img, Failed(Refused))
    else if magic == E_ECDH then
      if priv.DhPrivate? then DhDecode(c, img, priv.x, wantKey) else (img, Failed(Refused))
    else (img, Failed(BadData))
  }

  /** The decoder succeeded with this payload and key. */
  ghost predicate Yields(r: (seq<Byte>, Outcome), data: seq<Byte>, key: Option<Key>) {
    && r.1.Decoded? && r.1.cb == |data| && r.1.key == key
    && r.1.at + |data| <= |r.0| && Get(r.0, r.1.at, |data|) == data
  }
}
