/** `UH_PACKET` in place: every encoder and decoder works on one buffer whose fields overlap. */
module Packet {
  import opened Words
  import opened Bytes
  import opened Crypto
  import opened PacketSpec

  class UhPacket {
    const data: array<Byte>

    /** A packet over freshly allocated memory, whose old contents stay. */
    constructor (memory: seq<Byte>)
      ensures data[..] == memory && fresh(data)
    {
      data := new Byte[|memory|](i requires 0 <= i < |memory| => memory[i]);
      new;
      assert data[..] == memory;
    }

    /** `memcpy` into the packet. */
    method Write(at: nat, bytes: seq<Byte>)
      requires at + |bytes| <= data.Length
      modifies data
      ensures data[..] == Put(old(data[..]), at, bytes)
    {
      var i := 0;
      while i < |bytes|
        invariant 0 <= i <= |bytes|
        invariant data[at..at + i] == bytes[..i]
        invariant data[..at] == old(data[..at]) && data[at + |bytes|..] == old(data[at + |bytes|..])
      {
        data[at + i] := bytes[i];
        i := i + 1;
      }
      assert data[..] == data[..at] + data[at..at + |bytes|] + data[at + |bytes|..];
    }

    method WriteWord(at: nat, x: nat)
      requires at + 4 <= data.Length
      modifies data
      ensures data[..] == PutWord(old(data[..]), at, x)
    {
      Write(at, LittleEndian(x, 4));
    }

    method ReadWord(at: nat) returns (x: nat)
      requires at + 4 <= data.Length
      ensures x == Word(data[..], at)
    {
      assert data[at..at + 4] == Get(data[..], at, 4);
      x := FromLittleEndian(data[at..at + 4]);
    }

    method AesEncodeI(c: Suite, key: Key, nonce: seq<Byte>, plain: seq<Byte>, at: nat)
      requires GcmLaw(c) && |nonce| == NONCE_SIZE && BUF <= at && at + |plain| <= data.Length
      modifies data
      ensures data[..] == AesSealed(c, old(data[..]), key, nonce, plain, at)
    {
      Write(NONCE, nonce);
      var s := c.seal(key, nonce, plain);
      Write(TAG, s.tag);
      Write(at, s.cipher);
    }

    method AesDecodeI(c: Suite, key: Key, at: nat, cb: nat) returns (ok: bool)
      requires GcmLaw(c) && BUF <= at && at + cb <= data.Length
      modifies data
      ensures var r := AesOpened(c, old(data[..]), key, at, cb);
              ok == r.Some? && data[..] == if ok then r.value else old(data[..])
    {
      var img := data[..];
      var p := c.open(key, Get(img, NONCE, NONCE_SIZE), Get(img, TAG, TAG_SIZE), Get(img, at, cb));
      ok := p.Some?;
      if ok {
        assert |p.value| == cb;
        Write(at, p.value);
      }
    }

    method AesEncode(c: Suite, key: Key, nonce: seq<Byte>, plain: seq<Byte>)
      requires GcmLaw(c) && |nonce| == NONCE_SIZE && data.Length == BUF + |plain|
      modifies data
      ensures data[..] == PacketSpec.AesEncode(c, old(data[..]), key, nonce, plain)
    {
      WriteWord(MAGIC, E_AES);
      WriteWord(DATA_SIZE, |plain|);
      WriteWord(PACKET_SIZE, BUF + |plain|);
      AesEncodeI(c, key, nonce, plain, BUF);
    }

    method AesDecode(c: Suite, key: Key) returns (o: Outcome)
      requires GcmLaw(c) && SizeValid(data[..])
      modifies data
      ensures (data[..], o) == PacketSpec.AesDecode(c, old(data[..]), key)
    {
      o := Failed(BadData);
      var cb := ReadWord(PACKET_SIZE);
      if BUF < cb {
        var magic := ReadWord(MAGIC);
        var size := ReadWord(DATA_SIZE);
        if magic == E_AES && cb - BUF == size {
          var ok := AesDecodeI(c, key, BUF, cb - BUF);
          o := if ok then Decoded(BUF, cb - BUF, None) else Failed(Refused);
        }
      }
    }

    /** Encrypts the block in place. */
    method EncryptBlock(c: Suite) returns (ok: bool)
      requires RsaLaw(c) && ENCRYPTED + c.blockLength <= data.Length
      modifies data
      ensures var r := Encrypted(c, old(data[..]));
              ok == r.Some? && data[..] == if ok then r.value else old(data[..])
    {
      var x := c.encrypt(Get(data[..], ENCRYPTED, c.blockLength));
      ok := x.Some?;
      if ok {
        Write(ENCRYPTED, x.value);
      }
    }

    /** `RSA_Encode` of an allocated packet. */
    method RsaEncodeI(c: Suite, plain: Option<seq<Byte>>) returns (ok: bool)
      requires RsaLaw(c) && ENCRYPTED + c.blockLength <= data.Length && RSA_DATA + PayloadSize(plain) <= data.Length
      modifies data
      ensures var r := Encrypted(c, RsaBlock(old(data[..]), plain));
              ok == r.Some? && (ok ==> data[..] == r.value)
    {
      if plain.Some? {
        WriteWord(MAGIC, E_RSA);
        Write(RSA_DATA, plain.value);
      }
      Write(DATA_SIZE, Reversed(LittleEndian(PayloadSize(plain), 4)));
      ok := EncryptBlock(c);
    }

    method RsaAesEncodeI(c: Suite, plain: seq<Byte>, aes: Key, nonce: seq<Byte>) returns (ok: bool)
      requires RsaLaw(c) && GcmLaw(c) && |aes| == KEY_SIZE && |nonce| == NONCE_SIZE
      requires ENCRYPTED + c.blockLength <= data.Length && RSA_AES_DATA + |plain| <= data.Length
      modifies data
      ensures var r := Encrypted(c, RsaAesBlock(c, old(data[..]), aes, nonce, plain));
              ok == r.Some? && (ok ==> data[..] == r.value)
    {
      Write(AES, aes);
      if |plain| != 0 {
        AesEncodeI(c, aes, nonce, plain, RSA_AES_DATA);
      }
      WriteWord(MAGIC, E_RSA_AES);
      Write(DATA_SIZE, Reversed(LittleEndian(|plain|, 4)));
      ok := EncryptBlock(c);
    }

    /** The static `RSA_Encode`: chooses the form, then fills the packet. */
    method RsaEncode(c: Suite, plain: Option<seq<Byte>>, aes: Key, nonce: seq<Byte>, wantKey: bool) returns (ok: bool)
      requires RsaLaw(c) && GcmLaw(c) && |aes| == KEY_SIZE && |nonce| == NONCE_SIZE
      requires data.Length == RsaSize(c, PayloadSize(plain), wantKey)
      modifies data
      ensures var r := PacketSpec.RsaEncode(c, old(data[..]), plain, aes, nonce, wantKey);
              ok == r.Some? && (ok ==> data[..] == r.value)
    {
      if wantKey || c.blockLength - 4 < PayloadSize(plain) {
        ok := RsaAesEncodeI(c, if plain.Some? then plain.value else [], aes, nonce);
      } else {
        ok := RsaEncodeI(c, plain);
      }
      if ok {
        WriteWord(PACKET_SIZE, data.Length);
      }
    }

    method RsaDecode(c: Suite) returns (o: Outcome)
      requires RsaLaw(c) && SizeValid(data[..])
      modifies data
      ensures (data[..], o) == PacketSpec.RsaDecode(c, old(data[..]))
    {
      var size := ReadWord(PACKET_SIZE);
      if ENCRYPTED + c.blockLength > size {
        return Failed(BadData);
      }
      var x := c.decrypt(Get(data[..], ENCRYPTED, c.blockLength));
      if x.None? {
        return Failed(Refused);
      }
      Write(ENCRYPTED, x.value);
      o := Decoded(RSA_DATA, FromLittleEndian(Reversed(Get(data[..], DATA_SIZE, 4))), None);
    }

    method RsaAesDecode(c: Suite, wantKey: bool) returns (o: Outcome)
      requires RsaLaw(c) && GcmLaw(c) && SizeValid(data[..])
      modifies data
      ensures (data[..], o) == PacketSpec.RsaAesDecode(c, old(data[..]), wantKey)
    {
      o := RsaDecode(c);
      if o.Decoded? {
        var cb := o.cb;
        if RSA_AES_DATA + cb > data.Length {
          return Failed(BadData);
        }
        var key := Get(data[..], AES, KEY_SIZE);
        var ok := AesDecodeI(c, key, RSA_AES_DATA, cb);
        o := if ok then Decoded(RSA_AES_DATA, cb, if wantKey then Some(key) else None) else Failed(Refused);
      }
    }

    /** `DH_Encode`: the exported public key, then the payload sealed under the agreed key. */
    method DhEncode(c: Suite, peer: seq<Byte>, x: nat, plain: seq<Byte>, nonce: seq<Byte>) returns (key: Option<Key>)
      requires GcmLaw(c) && |nonce| == NONCE_SIZE && data.Length == DhSize(c, x, |plain|)
      modifies data
      ensures var r := PacketSpec.DhEncode(c, old(data[..]), peer, x, plain, nonce);
              key.Some? == r.Some? && (key.Some? ==> r.value == (data[..], key.value))
    {
      var blob := c.dhPublic(x);
      Write(BUF, blob);
      key := c.agree(x, peer);
      if key.Some? {
        if |plain| != 0 {
          AesEncodeI(c, key.value, nonce, plain, BUF + |blob|);
        }
        WriteWord(MAGIC, E_ECDH);
        WriteWord(DATA_SIZE, |plain|);
        WriteWord(PACKET_SIZE, data.Length);
      }
    }

    method DhDecode(c: Suite, x: nat, wantKey: bool) returns (o: Outcome)
      requires GcmLaw(c) && SizeValid(data[..])
      modifies data
      ensures (data[..], o) == PacketSpec.DhDecode(c, old(data[..]), x, wantKey)
    {
      if data.Length < BUF {
        return Failed(OutOfPacket);
      }
      var total := data.Length - BUF;
      var cb := ReadWord(DATA_SIZE);
      if cb >= total {
        return Failed(BadData);
      }
      var key := c.agree(x, Get(data[..], BUF, total - cb));
      if key.None? {
        return Failed(Refused);
      }
      var at := BUF + total - cb;
      if cb != 0 {
        var ok := AesDecodeI(c, key.value, at, cb);
        if !ok {
          return Failed(Refused);
        }
      }
      o := Decoded(at, cb, if wantKey then key else None);
    }

    method Decode(c: Suite, priv: PrivateKey, wantKey: bool) returns (o: Outcome)
      requires Lawful(c) && SizeValid(data[..])
      modifies data
      ensures (data[..], o) == PacketSpec.Decode(c, old(data[..]), priv, wantKey)
    {
      var magic := ReadWord(MAGIC);
      if magic !in {E_RSA, E_RSA_AES, E_ECDH} {
        o := Failed(BadData);
      } else if magic == E_ECDH && priv.DhPrivate? {
        o := DhDecode(c, priv.x, wantKey);
      } else if magic == E_RSA && priv.RsaPrivate? {
        o := RsaDecode(c);
      } else if magic == E_RSA_AES && priv.RsaPrivate? {
        o := RsaAesDecode(c, wantKey);
      } else {
        o := Failed(Refused);
      }
    }
  }
}
