/** The cryptographic primitives as abstract functions with their inverse laws. */
module Crypto {
  import opened Words
  import opened Bytes

  type Key = seq<Byte>

  const NONCE_SIZE: nat := 12
  const TAG_SIZE: nat := 16
  const KEY_SIZE: nat := 32

  datatype Sealed = Sealed(cipher: seq<Byte>, tag: seq<Byte>)

  /** One RSA key pair used without padding, AES-GCM, and a Diffie-Hellman group. */
  datatype Suite = Suite(
    blockLength: nat,
    modulus: nat,
    encrypt: seq<Byte> -> Option<seq<Byte>>,
    decrypt: seq<Byte> -> Option<seq<Byte>>,
    seal: (Key, seq<Byte>, seq<Byte>) -> Sealed,
    open: (Key, seq<Byte>, seq<Byte>, seq<Byte>) -> Option<seq<Byte>>,
    dhPublic: nat -> seq<Byte>,
    agree: (nat, seq<Byte>) -> Option<Key>)

  /** Raw RSA inverts on blocks that are, as integers, below the modulus; a key of n bytes has a
      modulus of at least 256^(n-1). */
  ghost predicate RsaLaw(c: Suite) {
    && c.blockLength >= 64 && Power(c.blockLength - 1) <= c.modulus
    && (forall b :: |b| == c.blockLength && BigEndian(b) < c.modulus ==>
                      c.encrypt(b).Some? && c.decrypt(c.encrypt(b).value) == Some(b))
    && (forall b :: c.encrypt(b).Some? ==> |c.encrypt(b).value| == |b|)
    && (forall b :: c.decrypt(b).Some? ==> |c.decrypt(b).value| == |b|)
  }

  /** GCM keeps the length and opens what it sealed. */
  ghost predicate GcmLaw(c: Suite) {
    && (forall k, n, p :: |c.seal(k, n, p).cipher| == |p| && |c.seal(k, n, p).tag| == TAG_SIZE)
    && (forall k, n, p :: c.open(k, n, c.seal(k, n, p).tag, c.seal(k, n, p).cipher) == Some(p))
    && (forall k, n, t, x :: c.open(k, n, t, x).Some? ==> |c.open(k, n, t, x).value| == |x|)
  }

  /** Both sides agree on the same key, and a public key is not empty. */
  ghost predicate DhLaw(c: Suite) {
    && (forall x, y :: c.agree(x, c.dhPublic(y)).Some? && c.agree(x, c.dhPublic(y)) == c.agree(y, c.dhPublic(x)))
    && (forall x :: |c.dhPublic(x)| > 0)
  }

  ghost predicate Lawful(c: Suite) {
    RsaLaw(c) && GcmLaw(c) && DhLaw(c)
  }

  /** The laws can be met: identity ciphers over the largest modulus. */
  lemma LawfulSuiteExists() returns (c: Suite)
    ensures Lawful(c)
  {
    c := Suite(64, Power(64),
               b => Some(b), b => Some(b),
               (k, n, p) => Sealed(p, seq(TAG_SIZE, _ => 0)), (k, n, t, x) => Some(x),
               x => [0], (x, b) => Some([]));
    assert Power(64) == 0x100 * Power(63);
  }
}
