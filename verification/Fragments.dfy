/** How a message is cut into fragments, and the arithmetic of the 64-flag bitmap and the
    remaining-bytes counter with which the receiver follows them. */
module Fragments {
  import opened Words

  const MAX_PACKET: nat := 0x580
  const MAX_FRAGMENTS: nat := 0x40

  datatype Message = Message(kind: nat, data: seq<Byte>)

  predicate Sendable(m: Message) {
    |m.data| <= MAX_PACKET * MAX_FRAGMENTS
  }

  /** The body of an `E_PACKET`. */
  datatype Fragment = Fragment(length: nat, kind: nat, M: nat, N: nat, buf: seq<Byte>)

  /** The do-while loop of the sender makes one fragment even for an empty message. */
  function FragmentCount(length: nat): (k: nat)
    ensures k >= 1
    ensures length > 0 ==> (k - 1) * MAX_PACKET < length <= k * MAX_PACKET
    ensures length <= MAX_PACKET * MAX_FRAGMENTS ==> k <= MAX_FRAGMENTS
  {
    if length == 0 then 1 else (length + MAX_PACKET - 1) / MAX_PACKET
  }

  function FragmentLength(length: nat, n: nat): (r: nat)
    requires n < FragmentCount(length)
    ensures r <= MAX_PACKET && n * MAX_PACKET + r <= length
    ensures length > 0 ==> r > 0
  {
    if length - n * MAX_PACKET < MAX_PACKET then length - n * MAX_PACKET else MAX_PACKET
  }

  function FragmentOf(m: Message, M: nat, n: nat): (f: Fragment)
    requires n < FragmentCount(|m.data|)
  {
    var from := n * MAX_PACKET;
    Fragment(|m.data|, m.kind, M, n, m.data[from..from + FragmentLength(|m.data|, n)])
  }

  function Cut(m: Message, M: nat): (r: seq<Fragment>)
    ensures |r| == FragmentCount(|m.data|)
    ensures forall n :: 0 <= n < |r| ==> r[n] == FragmentOf(m, M, n)
  {
    seq(FragmentCount(|m.data|), n requires 0 <= n < FragmentCount(|m.data|) => FragmentOf(m, M, n))
  }

  function Joined(fs: seq<Fragment>): seq<Byte> {
    if fs == [] then [] else Joined(fs[..|fs| - 1]) + fs[|fs| - 1].buf
  }

  lemma {:induction false} PrefixJoins(m: Message, M: nat, n: nat)
    requires 1 <= n <= FragmentCount(|m.data|)
    ensures Joined(Cut(m, M)[..n]) == m.data[..(n - 1) * MAX_PACKET + FragmentLength(|m.data|, n - 1)]
  {
    var fs := Cut(m, M);
    assert fs[..n][..n - 1] == fs[..n - 1];
    if n > 1 {
      PrefixJoins(m, M, n - 1);
    } else {
      assert Joined(fs[..0]) == [];
    }
  }

  /** The fragments are a partition of the message. */
  lemma FragmentsJoin(m: Message, M: nat)
    ensures Joined(Cut(m, M)) == m.data
  {
    var k := FragmentCount(|m.data|);
    PrefixJoins(m, M, k);
    assert Cut(m, M)[..k] == Cut(m, M);
  }

  // ---- The bitmap --------------------------------------------------------------------

  /** `m_bits`, least significant bit first. */
  type Bits = b: seq<bool> | |b| == MAX_FRAGMENTS witness seq(MAX_FRAGMENTS, _ => false)

  function NoBits(): Bits {
    Ones(0)
  }

  /** The pattern 2^k - 1. */
  function Ones(k: nat): (b: Bits) {
    seq(MAX_FRAGMENTS, i => i < k)
  }

  /** Binary increment of a pattern, carry out of the top dropped. */
  function Increment(b: seq<bool>): (r: seq<bool>)
    ensures |r| == |b|
  {
    if b == [] then [] else if b[0] then [false] + Increment(b[1..]) else [true] + b[1..]
  }

  /** `!((bits + 1) & bits)`. */
  predicate Contiguous(b: seq<bool>) {
    var c := Increment(b);
    forall i :: 0 <= i < |b| ==> !(c[i] && b[i])
  }

  predicate Block(b: seq<bool>, k: nat) {
    k <= |b| && forall i :: 0 <= i < |b| ==> b[i] == (i < k)
  }

  lemma {:induction false} IncrementBlock(b: seq<bool>, k: nat)
    requires Block(b, k)
    ensures Contiguous(b)
  {
    if k > 0 {
      IncrementBlock(b[1..], k - 1);
      assert forall i :: 1 <= i < |b| ==> Increment(b)[i] == Increment(b[1..])[i - 1] && b[i] == b[1..][i - 1];
    }
  }

  lemma {:induction false} ContiguousBlock(b: seq<bool>) returns (k: nat)
    requires Contiguous(b)
    ensures Block(b, k)
  {
    if b == [] || !b[0] {
      k := 0;
      if b != [] {
        forall i | 0 <= i < |b| ensures !b[i] {
          assert i > 0 ==> Increment(b)[i] == b[i];
        }
      }
    } else {
      var t, c := b[1..], Increment(b);
      forall i | 0 <= i < |t| ensures !(Increment(t)[i] && t[i]) {
        assert c[i + 1] == Increment(t)[i] && b[i + 1] == t[i];
      }
      var j := ContiguousBlock(t);
      k := j + 1;
      forall i | 0 <= i < |b| ensures b[i] == (i < k) {
        if i > 0 { assert b[i] == t[i - 1]; }
      }
    }
  }

  /** The test the receiver evidently means accepts exactly the patterns 2^k - 1, k = 64
      (where the increment wraps to zero) included. */
  lemma ContiguousIsOnes(b: Bits)
    ensures Contiguous(b) <==> exists k :: 0 <= k <= MAX_FRAGMENTS && b == Ones(k)
  {
    if Contiguous(b) {
      var k := ContiguousBlock(b);
      assert b == Ones(k);
    }
    forall k | 0 <= k <= MAX_FRAGMENTS && b == Ones(k) ensures Contiguous(b) {
      IncrementBlock(b, k);
    }
  }

  // ---- The counter -------------------------------------------------------------------

  /** Bytes of the first k fragments whose bit is clear. */
  function Missing(length: nat, b: Bits, k: nat): nat
    requires k <= FragmentCount(length) && k <= MAX_FRAGMENTS
  {
    if k == 0 then 0 else Missing(length, b, k - 1) + if b[k - 1] then 0 else FragmentLength(length, k - 1)
  }

  lemma {:induction false} MissingAll(length: nat, b: Bits, k: nat)
    requires k <= FragmentCount(length) && k <= MAX_FRAGMENTS
    requires forall i :: 0 <= i < k ==> !b[i]
    ensures Missing(length, b, k) == if k == FragmentCount(length) then length else k * MAX_PACKET
  {
    if k > 0 {
      MissingAll(length, b, k - 1);
    }
  }

  lemma {:induction false} MissingSet(length: nat, b: Bits, n: nat, k: nat)
    requires k <= FragmentCount(length) && k <= MAX_FRAGMENTS && n < MAX_FRAGMENTS && !b[n]
    ensures n < k ==> Missing(length, b[n := true], k) == Missing(length, b, k) - FragmentLength(length, n)
    ensures n >= k ==> Missing(length, b[n := true], k) == Missing(length, b, k)
  {
    if k > 0 {
      MissingSet(length, b, n, k - 1);
    }
  }

  lemma {:induction false} MissingZero(length: nat, b: Bits, k: nat)
    requires length > 0 && k <= FragmentCount(length) && k <= MAX_FRAGMENTS
    ensures Missing(length, b, k) == 0 <==> forall i :: 0 <= i < k ==> b[i]
    ensures Missing(length, b, k) <= k * MAX_PACKET
  {
    if k > 0 {
      MissingZero(length, b, k - 1);
    }
  }
}
