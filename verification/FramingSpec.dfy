/** The TCP framing: what the sender puts on the stream and what a stream means to the receiver,
    whatever chunks it comes in. */
module FramingSpec {
  import opened Words
  import opened Bytes

  const HEADER: nat := 8

  /** Encryption with the session key and the checksum of the plaintext. */
  datatype Session = Session(
    encrypt: seq<Byte> -> seq<Byte>,
    decrypt: seq<Byte> -> Option<seq<Byte>>,
    crc: seq<Byte> -> nat)

  ghost predicate Lawful(k: Session) {
    && (forall d :: k.decrypt(k.encrypt(d)) == Some(d))
    && (forall d :: |k.encrypt(d)| > 0)
    && (forall x :: k.decrypt(x).Some? ==> |k.decrypt(x).value| <= |x|)
    && (forall d :: k.crc(d) < ULONG_RANGE)
  }

  /** Bitwise exclusive or of the n low bits. */
  function Xor(a: nat, b: nat, n: nat): nat {
    if n == 0 then 0 else (if a % 2 == b % 2 then 0 else 1) + 2 * Xor(a / 2, b / 2, n - 1)
  }

  function Exp2(n: nat): nat {
    if n == 0 then 1 else 2 * Exp2(n - 1)
  }

  lemma {:induction false} XorBound(a: nat, b: nat, n: nat)
    ensures Xor(a, b, n) < Exp2(n)
  {
    if n > 0 {
      XorBound(a / 2, b / 2, n - 1);
    }
  }

  lemma {:induction false} XorTwice(a: nat, b: nat, n: nat)
    requires a < Exp2(n)
    ensures Xor(Xor(a, b, n), b, n) == a
  {
    if n > 0 {
      XorTwice(a / 2, b / 2, n - 1);
    }
  }

  datatype UserData = UserData(kind: nat, data: seq<Byte>)

  function Header(size: nat, tag: nat): (h: seq<Byte>)
    ensures |h| == HEADER
  {
    LittleEndian(size, 4) + LittleEndian(tag, 4)
  }

  /** The two senders: a bare type, or a type with (possibly empty) encrypted data. */
  datatype Send = Bare(kind: nat) | WithData(kind: nat, data: seq<Byte>)

  function Sent(p: Send): UserData {
    match p
    case Bare(kind) => UserData(kind, [])
    case WithData(kind, data) => UserData(kind, data)
  }

  function Frame(k: Session, p: Send): (f: seq<Byte>)
    ensures |f| >= HEADER
  {
    match p
    case Bare(kind) => Header(HEADER, kind)
    case WithData(kind, data) =>
      var x := k.encrypt(data);
      Header(HEADER + |x|, Xor(kind, k.crc(data), 32)) + x
  }

  // ---- What a complete frame means ---------------------------------------------------

  /** What the receiver hands to `OnUserData` for a frame, or nothing if decryption fails. */
  function Open(k: Session, frame: seq<Byte>): Option<UserData>
    requires |frame| >= HEADER
  {
    var tag := FromLittleEndian(frame[4..8]);
    if |frame| == HEADER then Some(UserData(tag, []))
    else
      var d := k.decrypt(frame[HEADER..]);
      if d.None? then None else Some(UserData(Xor(tag, k.crc(d.value), 32), d.value))
  }

  predicate Frames(fs: seq<seq<Byte>>) {
    forall i :: 0 <= i < |fs| ==> |fs[i]| >= HEADER
  }

  /** The calls of `OnUserData` for these frames, up to the first that does not decrypt or is
      refused by the callee, and whether there was none. */
  function Handled(k: Session, accept: UserData -> bool, fs: seq<seq<Byte>>): (r: (seq<UserData>, bool))
    requires Frames(fs)
  {
    if fs == [] then ([], true)
    else
      var d := Open(k, fs[0]);
      if d.None? then ([], false)
      else if !accept(d.value) then ([d.value], false)
      else
        var (rest, ok) := Handled(k, accept, fs[1..]);
        ([d.value] + rest, ok)
  }

  // ---- The meaning of a stream -------------------------------------------------------

  /** `Overrun`: a header whose size is below 8, for which the code computes a wrapped length. */
  datatype Verdict = Fine | Bad | Overrun

  datatype Parsed = Parsed(frames: seq<seq<Byte>>, rest: seq<Byte>, verdict: Verdict)

  function SizeOf(s: seq<Byte>): nat
    requires |s| >= 4
  {
    FromLittleEndian(s[..4])
  }

  /** All complete frames of a stream and the incomplete rest. */
  function Parse(s: seq<Byte>, cap: nat): (p: Parsed)
    ensures Frames(p.frames)
    ensures p.verdict == Fine ==> Waiting(p.rest, cap)
    decreases |s|
  {
    if s == [] then Parsed([], [], Fine)
    else if |s| < HEADER || SizeOf(s) > cap then Parsed([], s, Bad)
    else if SizeOf(s) < HEADER then Parsed([], s, Overrun)
    else if |s| < SizeOf(s) then Parsed([], s, Fine)
    else
      var n := SizeOf(s);
      var p := Parse(s[n..], cap);
      p.(frames := [s[..n]] + p.frames)
  }

  /** What may wait in the buffer between two calls. */
  predicate Waiting(s: seq<Byte>, cap: nat) {
    s == [] || (HEADER <= |s| < SizeOf(s) <= cap)
  }

  function Concat(ss: seq<seq<Byte>>): seq<Byte> {
    if ss == [] then [] else ss[0] + Concat(ss[1..])
  }

  function Stream(k: Session, ps: seq<Send>): seq<Byte> {
    if ps == [] then [] else Frame(k, ps[0]) + Stream(k, ps[1..])
  }

  /** The receiver given one chunk after another, until a call fails. */
  function Feed(pending: seq<Byte>, chunks: seq<seq<Byte>>, cap: nat): (p: Parsed)
    ensures Frames(p.frames)
    decreases |chunks|
  {
    if chunks == [] then Parsed([], pending, Fine)
    else
      var p := Parse(pending + chunks[0], cap);
      if p.verdict != Fine then p
      else
        var q := Feed(p.rest, chunks[1..], cap);
        q.(frames := p.frames + q.frames)
  }
}
