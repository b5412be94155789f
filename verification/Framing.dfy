/** Deframing is independent of chunking, and undoes framing. */
module Framing {
  import opened Words
  import opened Bytes
  import opened FramingSpec

  // ---- Sender and receiver of one frame ----------------------------------------------

  lemma Exp2Is()
    ensures Exp2(32) == ULONG_RANGE
  {
    assert Exp2(8) == 0x100;
    assert Exp2(16) == 0x1_0000;
    assert Exp2(24) == 0x100_0000;
  }

  predicate Sendable(k: Session, p: Send, cap: nat) {
    p.kind < ULONG_RANGE && |Frame(k, p)| <= cap < ULONG_RANGE
  }

  /** A frame announces its own length and opens to what was sent. */
  lemma FrameOpens(k: Session, p: Send, cap: nat)
    requires Lawful(k) && Sendable(k, p, cap)
    ensures SizeOf(Frame(k, p)) == |Frame(k, p)| && Open(k, Frame(k, p)) == Some(Sent(p))
  {
    var f := Frame(k, p);
    Exp2Is();
    Word32(|f|);
    assert f[..4] == LittleEndian(|f|, 4);
    match p {
      case Bare(kind) =>
        Word32(kind);
        assert f[4..8] == LittleEndian(kind, 4);
      case WithData(kind, data) =>
        var tag := Xor(kind, k.crc(data), 32);
        XorBound(kind, k.crc(data), 32);
        XorTwice(kind, k.crc(data), 32);
        Word32(tag);
        assert f[4..8] == LittleEndian(tag, 4);
        assert f[HEADER..] == k.encrypt(data);
    }
  }

  predicate Bit(a: nat, i: nat) {
    if i == 0 then a % 2 == 1 else Bit(a / 2, i - 1)
  }

  lemma {:induction false} XorBits(a: nat, b: nat, n: nat, i: nat)
    requires i < n
    ensures Bit(Xor(a, b, n), i) <==> (Bit(a, i) <==> !Bit(b, i))
  {
    var rest := Xor(a / 2, b / 2, n - 1);
    assert Xor(a, b, n) == (if a % 2 == b % 2 then 0 else 1) + 2 * rest;
    hide Xor;
    if i > 0 {
      XorBits(a / 2, b / 2, n - 1, i - 1);
    }
  }

  /** A frame on the stream: its size, then the type, or the type masked bit by bit with the checksum of the
      data, both low byte first, and the ciphertext. */
  lemma FrameImage(k: Session, p: Send)
    requires Lawful(k) && p.kind < ULONG_RANGE && |Frame(k, p)| < ULONG_RANGE
    ensures p.Bare? ==> Frame(k, p) == [8, 0, 0, 0] + LowFirst(p.kind)
    ensures p.WithData? ==>
              var x, tag := k.encrypt(p.data), Xor(p.kind, k.crc(p.data), 32);
              && tag < ULONG_RANGE && Frame(k, p) == LowFirst(8 + |x|) + LowFirst(tag) + x
              && forall i: nat :: i < 32 ==> (Bit(tag, i) <==> (Bit(p.kind, i) <==> !Bit(k.crc(p.data), i)))
  {
    Exp2Is();
    if p.Bare? {
      FourBytes(8);
      FourBytes(p.kind);
    } else {
      var x, crc := k.encrypt(p.data), k.crc(p.data);
      var tag := Xor(p.kind, crc, 32);
      XorBound(p.kind, crc, 32);
      FourBytes(8 + |x|);
      FourBytes(tag);
      forall i: nat | i < 32 ensures Bit(tag, i) <==> (Bit(p.kind, i) <==> !Bit(crc, i)) {
        XorBits(p.kind, crc, 32, i);
      }
      hide Xor, Bit, LittleEndian, LowFirst;
    }
  }

  /** What the header of a stream decides: fewer than 8 bytes or a size beyond the buffer end the connection,
      a size below 8 is not noticed, and a packet is handed on exactly if all of it is there. */
  lemma HeaderDecides(s: seq<Byte>, cap: nat, size: nat)
    requires s != [] && size < ULONG_RANGE && (|s| >= 4 ==> s[..4] == LowFirst(size))
    ensures |s| < 8 || size > cap ==> Parse(s, cap) == Parsed([], s, Bad)
    ensures |s| >= 8 && size <= cap && size < 8 ==> Parse(s, cap) == Parsed([], s, Overrun)
    ensures |s| >= 8 && 8 <= size <= cap && |s| < size ==> Parse(s, cap) == Parsed([], s, Fine)
    ensures |s| >= 8 && 8 <= size <= cap && size <= |s| ==> Parse(s, cap) == After([s[..size]], Parse(s[size..], cap))
  {
    if |s| >= 4 {
      FourBytes(size);
      Word32(size);
    }
    hide LittleEndian, FromLittleEndian, LowFirst;
  }

  // ---- Chunking ----------------------------------------------------------------------

  function After(fs: seq<seq<Byte>>, p: Parsed): (r: Parsed)
    requires Frames(fs) && Frames(p.frames)
    ensures Frames(r.frames)
  {
    p.(frames := fs + p.frames)
  }

  /** A complete frame at the front is split off. */
  lemma ParseFirst(f: seq<Byte>, t: seq<Byte>, cap: nat)
    requires HEADER <= |f| <= cap && SizeOf(f) == |f|
    ensures Parse(f + t, cap) == After([f], Parse(t, cap))
  {
    var s := f + t;
    assert s[..4] == f[..4] && s[..|f|] == f && s[|f|..] == t;
    hide SizeOf;
  }

  lemma ParseCases(s: seq<Byte>, cap: nat)
    ensures Waiting(s, cap) ==> Parse(s, cap) == Parsed([], s, Fine)
    ensures Parse(s, cap).verdict == Fine && !Waiting(s, cap) ==>
              HEADER <= |s| && HEADER <= SizeOf(s) <= cap && SizeOf(s) <= |s|
  {
  }

  /** Receiving a stream in two parts means the same as receiving it at once, provided the first
      part did not end inside a header. */
  lemma {:induction false} ParseSplit(a: seq<Byte>, b: seq<Byte>, cap: nat)
    requires Parse(a, cap).verdict == Fine
    ensures Parse(a + b, cap) == After(Parse(a, cap).frames, Parse(Parse(a, cap).rest + b, cap))
    decreases |a|
  {
    hide Parse;
    ParseCases(a, cap);
    if !Waiting(a, cap) {
      var n := SizeOf(a);
      var f, t := a[..n], a[n..];
      assert f[..4] == a[..4] && a == f + t && a + b == f + (t + b);
      ParseFirst(f, t, cap);
      ParseFirst(f, t + b, cap);
      ParseSplit(t, b, cap);
    }
  }

  lemma FeedNext(pending: seq<Byte>, chunks: seq<seq<Byte>>, cap: nat)
    requires chunks != []
    ensures var p := Parse(pending + chunks[0], cap);
            Feed(pending, chunks, cap) == if p.verdict != Fine then p
                else After(p.frames, Feed(p.rest, chunks[1..], cap))
  {
    hide Parse;
  }

  /** However a stream is cut, if no call fails the frames are those of the whole stream. */
  lemma {:induction false} ChunkingIndependent(pending: seq<Byte>, chunks: seq<seq<Byte>>, cap: nat)
    requires Waiting(pending, cap) && Feed(pending, chunks, cap).verdict == Fine
    ensures Feed(pending, chunks, cap) == Parse(pending + Concat(chunks), cap)
    decreases |chunks|
  {
    hide Parse;
    if chunks == [] {
      assert pending + Concat(chunks) == pending;
      ParseCases(pending, cap);
    } else {
      FeedNext(pending, chunks, cap);
      var a, b := pending + chunks[0], Concat(chunks[1..]);
      assert pending + Concat(chunks) == a + b;
      hide Feed, Concat, Waiting;
      ChunkingIndependent(Parse(a, cap).rest, chunks[1..], cap);
      ParseSplit(a, b, cap);
    }
  }

  // ---- Streams of framed packets -----------------------------------------------------

  predicate AllSendable(k: Session, ps: seq<Send>, cap: nat) {
    forall i :: 0 <= i < |ps| ==> Sendable(k, ps[i], cap)
  }

  function FramesOf(k: Session, ps: seq<Send>): (fs: seq<seq<Byte>>)
    ensures |fs| == |ps| && Frames(fs)
    ensures forall i :: 0 <= i < |fs| ==> fs[i] == Frame(k, ps[i])
  {
    seq(|ps|, i requires 0 <= i < |ps| => Frame(k, ps[i]))
  }

  /** How many packets lie completely in the first n bytes, and the length of what follows them. */
  function Whole(k: Session, ps: seq<Send>, n: nat): (r: (nat, nat))
    ensures r.0 <= |ps|
  {
    if ps == [] || n < |Frame(k, ps[0])| then (0, n)
    else
      var (j, left) := Whole(k, ps[1..], n - |Frame(k, ps[0])|);
      (j + 1, left)
  }

  /** A stream that ends within its first frame. */
  lemma ParsePartial(f: seq<Byte>, n: nat, cap: nat)
    requires HEADER <= |f| <= cap && SizeOf(f) == |f| && n < |f|
    ensures Parse(f[..n], cap) == Parsed([], f[..n], if 0 < n < HEADER then Bad else Fine)
  {
    assert n >= 4 ==> f[..n][..4] == f[..4];
    hide SizeOf;
  }

  lemma FramesFirst(k: Session, ps: seq<Send>, j: nat)
    requires j < |ps|
    ensures FramesOf(k, ps[..j + 1]) == [Frame(k, ps[0])] + FramesOf(k, ps[1..][..j])
    ensures FramesOf(k, ps[..0]) == []
  {
    hide Frame;
  }

  /** The first n bytes of the stream parse to the packets they contain; the call fails exactly
      when they end inside a header. */
  lemma {:induction false} PrefixParses(k: Session, ps: seq<Send>, n: nat, cap: nat)
    requires Lawful(k) && AllSendable(k, ps, cap) && n <= |Stream(k, ps)|
    ensures var p, (j, left) := Parse(Stream(k, ps)[..n], cap), Whole(k, ps, n);
            && p.frames == FramesOf(k, ps[..j])
            && |p.rest| == left
            && p.verdict == if 0 < left < HEADER then Bad else Fine
    decreases |ps|
  {
    var s := Stream(k, ps);
    if ps == [] {
      assert s[..n] == [];
      assert FramesOf(k, ps[..0]) == [];
    } else {
      var f, t := Frame(k, ps[0]), Stream(k, ps[1..]);
      FrameOpens(k, ps[0], cap);
      hide Parse, SizeOf, Lawful, Open, Frame, FramesOf;
      if n < |f| {
        assert s[..n] == f[..n];
        FramesFirst(k, ps, 0);
        ParsePartial(f, n, cap);
      } else {
        var m := n - |f|;
        assert s[..n] == f + t[..m];
        ParseFirst(f, t[..m], cap);
        PrefixParses(k, ps[1..], m, cap);
        var j := Whole(k, ps[1..], m).0;
        FramesFirst(k, ps, j);
      }
    }
  }

  lemma HandledFirst(k: Session, accept: UserData -> bool, f: seq<Byte>, fs: seq<seq<Byte>>, d: UserData)
    requires Frames(fs) && |f| >= HEADER && Open(k, f) == Some(d) && accept(d)
    ensures Handled(k, accept, [f] + fs) == ([d] + Handled(k, accept, fs).0, Handled(k, accept, fs).1)
  {
    hide Open;
    assert ([f] + fs)[1..] == fs;
  }

  function SentAll(ps: seq<Send>): (ds: seq<UserData>)
    ensures |ds| == |ps| && forall i :: 0 <= i < |ps| ==> ds[i] == Sent(ps[i])
  {
    seq(|ps|, i requires 0 <= i < |ps| => Sent(ps[i]))
  }

  predicate AllAccepted(accept: UserData -> bool, ps: seq<Send>) {
    forall i :: 0 <= i < |ps| ==> accept(Sent(ps[i]))
  }

  /** What the packets complete in the first n bytes of the stream hand over. */
  function Complete(k: Session, ps: seq<Send>, n: nat): seq<UserData> {
    SentAll(ps[..Whole(k, ps, n).0])
  }

  lemma SentFirst(k: Session, ps: seq<Send>)
    requires ps != []
    ensures FramesOf(k, ps) == [Frame(k, ps[0])] + FramesOf(k, ps[1..])
    ensures SentAll(ps) == [Sent(ps[0])] + SentAll(ps[1..])
  {
    hide Frame, Sent;
  }

  /** The frames of sent packets are handed over as they were sent, in order. */
  lemma {:induction false} HandledSent(k: Session, accept: UserData -> bool, ps: seq<Send>, cap: nat)
    requires Lawful(k) && AllSendable(k, ps, cap)
    requires AllAccepted(accept, ps)
    ensures Handled(k, accept, FramesOf(k, ps)) == (SentAll(ps), true)
  {
    if ps != [] {
      FrameOpens(k, ps[0], cap);
      hide Open, Frame, SizeOf, Sent, Lawful, Handled;
      HandledSent(k, accept, ps[1..], cap);
      SentFirst(k, ps);
      HandledFirst(k, accept, Frame(k, ps[0]), FramesOf(k, ps[1..]), Sent(ps[0]));
    }
  }

  /** No chunk boundary falls inside a header. */
  predicate HeadersWhole(k: Session, ps: seq<Send>, chunks: seq<seq<Byte>>, from: nat)
    decreases |chunks|
  {
    chunks == [] ||
    var n := from + |chunks[0]|;
    var left := Whole(k, ps, n).1;
    !(0 < left < HEADER) && HeadersWhole(k, ps, chunks[1..], n)
  }

  /** The receiver fed any cut of (a beginning of) the stream of sent packets: every call succeeds
      exactly if no boundary falls inside a header, and then the frames handed over are those of
      the packets received completely. */
  lemma StreamDelivered(k: Session, ps: seq<Send>, chunks: seq<seq<Byte>>, cap: nat)
    requires Lawful(k) && AllSendable(k, ps, cap)
    requires Concat(chunks) <= Stream(k, ps)
    ensures var p := Feed([], chunks, cap);
            && (p.verdict == Fine <==> HeadersWhole(k, ps, chunks, 0))
            && (p.verdict == Fine ==> p.frames == FramesOf(k, ps[..Whole(k, ps, |Concat(chunks)|).0]))
  {
    ParseCases([], cap);
    hide Parse, Stream, Whole, Feed, Lawful, AllSendable, HeadersWhole;
    assert [] + Concat(chunks) == Concat(chunks);
    BoundariesDecide(k, ps, [], chunks, cap);
    if Feed([], chunks, cap).verdict == Fine {
      ChunkingIndependent([], chunks, cap);
      var n := |Concat(chunks)|;
      assert Stream(k, ps)[..n] == Concat(chunks);
      PrefixParses(k, ps, n, cap);
    }
  }

  lemma {:induction false} BoundariesDecide(k: Session, ps: seq<Send>, before: seq<Byte>, chunks: seq<seq<Byte>>,
                                            cap: nat)
    requires Lawful(k) && AllSendable(k, ps, cap)
    requires before + Concat(chunks) <= Stream(k, ps)
    requires Parse(before, cap).verdict == Fine
    ensures Feed(Parse(before, cap).rest, chunks, cap).verdict == Fine <==> HeadersWhole(k, ps, chunks, |before|)
    decreases |chunks|
  {
    hide Parse, Lawful, AllSendable, Stream, Whole;
    if chunks != [] {
      var now := before + chunks[0];
      assert before + Concat(chunks) == now + Concat(chunks[1..]);
      assert Stream(k, ps)[..|now|] == now;
      ParseSplit(before, chunks[0], cap);
      FeedNext(Parse(before, cap).rest, chunks, cap);
      PrefixParses(k, ps, |now|, cap);
      if Parse(now, cap).verdict == Fine {
        BoundariesDecide(k, ps, now, chunks[1..], cap);
      }
    }
  }

  // ---- One call of the receiver ------------------------------------------------------

  /** What a call must do when it has seen s since the last complete packet: the data handed over,
      its result, and what then waits. */
  datatype Effect = Effect(out: seq<UserData>, ok: bool, rest: seq<Byte>)

  function Meaning(k: Session, accept: UserData -> bool, s: seq<Byte>, cap: nat): Effect {
    var p := Parse(s, cap);
    var h := Handled(k, accept, p.frames);
    Effect(h.0, h.1 && p.verdict == Fine, p.rest)
  }

  lemma MeaningWaits(k: Session, accept: UserData -> bool, s: seq<Byte>, cap: nat)
    requires Waiting(s, cap)
    ensures Meaning(k, accept, s, cap) == Effect([], true, s)
  {
  }

  lemma MeaningFails(k: Session, accept: UserData -> bool, s: seq<Byte>, cap: nat)
    requires s != [] && (|s| < HEADER || SizeOf(s) > cap || SizeOf(s) < HEADER)
    ensures Meaning(k, accept, s, cap) == Effect([], false, s)
  {
  }

  lemma MeaningNext(k: Session, accept: UserData -> bool, f: seq<Byte>, t: seq<Byte>, cap: nat)
    requires HEADER <= |f| <= cap && SizeOf(f) == |f|
    ensures var m, n := Meaning(k, accept, f + t, cap), Meaning(k, accept, t, cap);
            match Open(k, f)
            case None => m.out == [] && !m.ok
            case Some(d) =>
              if accept(d) then m == n.(out := [d] + n.out) else m.out == [d] && !m.ok
  {
    ParseFirst(f, t, cap);
    assert ([f] + Parse(t, cap).frames)[1..] == Parse(t, cap).frames;
    hide Parse, Open, SizeOf;
  }

  lemma FramesRange(k: Session, ps: seq<Send>, i: nat, j: nat)
    requires i <= j <= |ps|
    ensures FramesOf(k, ps[..j]) == FramesOf(k, ps[..i]) + FramesOf(k, ps[i..j])
    ensures SentAll(ps[..j]) == SentAll(ps[..i]) + SentAll(ps[i..j])
  {
    hide Frame, Sent;
    var a, b, c := ps[..j], ps[..i], ps[i..j];
    assert a == b + c;
    hide Frames;
    FramesJoin(k, b, c);
    SentJoin(b, c);
  }

  lemma FramesJoin(k: Session, b: seq<Send>, c: seq<Send>)
    ensures FramesOf(k, b + c) == FramesOf(k, b) + FramesOf(k, c)
  {
    hide Frame, Frames;
    var l, r := FramesOf(k, b + c), FramesOf(k, b) + FramesOf(k, c);
    assert |l| == |r| && forall n :: 0 <= n < |l| ==> l[n] == r[n];
  }

  lemma SentJoin(b: seq<Send>, c: seq<Send>)
    ensures SentAll(b + c) == SentAll(b) + SentAll(c)
  {
    hide Sent;
  }

  lemma {:induction false} WholeGrows(k: Session, ps: seq<Send>, n: nat, m: nat)
    requires n <= m
    ensures Whole(k, ps, n).0 <= Whole(k, ps, m).0
  {
    if ps != [] && n >= |Frame(k, ps[0])| {
      WholeGrows(k, ps[1..], n - |Frame(k, ps[0])|, m - |Frame(k, ps[0])|);
    }
  }

  /** One call on the stream of sent packets: a was seen before, x has come. It hands over the packets
      that x completes, and fails exactly if x ends inside a header. */
  lemma RecvStep(k: Session, accept: UserData -> bool, ps: seq<Send>, a: seq<Byte>, x: seq<Byte>, cap: nat)
    requires Lawful(k) && AllSendable(k, ps, cap) && a + x <= Stream(k, ps) && Parse(a, cap).verdict == Fine
    requires AllAccepted(accept, ps)
    ensures var m, left := Meaning(k, accept, Parse(a, cap).rest + x, cap), Whole(k, ps, |a + x|).1;
            && Complete(k, ps, |a + x|) == Complete(k, ps, |a|) + m.out && (m.ok <==> !(0 < left < HEADER))
            && (m.ok <==> Parse(a + x, cap).verdict == Fine) && m.rest == Parse(a + x, cap).rest
  {
    hide Parse, Lawful, AllSendable, Stream, Whole, Handled, SentAll, FramesOf, Sent;
    var s := Stream(k, ps);
    assert s[..|a|] == a && s[..|a + x|] == a + x;
    PrefixParses(k, ps, |a|, cap);
    PrefixParses(k, ps, |a + x|, cap);
    ParseSplit(a, x, cap);
    WholeGrows(k, ps, |a|, |a + x|);
    var i, j := Whole(k, ps, |a|).0, Whole(k, ps, |a + x|).0;
    FramesRange(k, ps, i, j);
    SameTail(FramesOf(k, ps[..i]), Parse(Parse(a, cap).rest + x, cap).frames, FramesOf(k, ps[i..j]));
    SomeSendable(k, ps, i, j, cap);
    HandledSent(k, accept, ps[i..j], cap);
  }

  lemma SameTail(a: seq<seq<Byte>>, b: seq<seq<Byte>>, c: seq<seq<Byte>>)
    requires a + b == a + c
    ensures b == c
  {
    assert b == (a + b)[|a|..] == (a + c)[|a|..] == c;
  }

  lemma SomeSendable(k: Session, ps: seq<Send>, i: nat, j: nat, cap: nat)
    requires AllSendable(k, ps, cap) && i <= j <= |ps|
    ensures AllSendable(k, ps[i..j], cap)
  {
    hide Sendable;
  }

  lemma {:induction false} HeadersNext(k: Session, ps: seq<Send>, chunks: seq<seq<Byte>>, x: seq<Byte>, from: nat)
    ensures HeadersWhole(k, ps, chunks + [x], from) <==>
              && HeadersWhole(k, ps, chunks, from)
              && !(0 < Whole(k, ps, from + |Concat(chunks)| + |x|).1 < HEADER)
    ensures Concat(chunks + [x]) == Concat(chunks) + x
    decreases |chunks|
  {
    hide Whole;
    if chunks == [] {
      assert (chunks + [x])[1..] == [] && [x][1..] == [];
    } else {
      assert (chunks + [x])[1..] == chunks[1..] + [x];
      HeadersNext(k, ps, chunks[1..], x, from + |chunks[0]|);
    }
  }
}
