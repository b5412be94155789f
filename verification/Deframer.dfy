/** The in-place deframer: one buffer, whose header word counts down the bytes still missing. */
module Deframer {
  import opened Words
  import opened Bytes
  import opened FramingSpec
  import opened Framing

  class EncTcp {
    const buf: array<Byte>
    var dataSize: nat
    /** The incomplete packet as it came from the stream, before the header was counted down. */
    ghost var pending: seq<Byte>
    /** Every call of `OnUserData`, oldest first. */
    ghost var delivered: seq<UserData>

    /** What waits in the buffer is the pending packet with its size field reduced to what is
        missing, and the buffer has room for that. */
    ghost predicate Valid()
      reads this, buf
    {
      && buf.Length < ULONG_RANGE && |pending| == dataSize <= buf.Length && Waiting(pending, buf.Length)
      && (pending != [] ==>
              FromLittleEndian(buf[..4]) == SizeOf(pending) - dataSize && buf[4..dataSize] == pending[4..])
    }

    constructor (bufferSize: nat)
      requires bufferSize < ULONG_RANGE
      ensures Valid() && pending == [] && delivered == [] && buf.Length == bufferSize && fresh(buf)
    {
      buf := new Byte[bufferSize](_ => 0);
      dataSize := 0;
      pending, delivered := [], [];
    }

    /** `SendUserData` with a type only. */
    method SendType(kind: nat) returns (packet: array<Byte>)
      ensures fresh(packet) && forall k: Session :: packet[..] == Frame(k, Bare(kind))
    {
      var h := Header(HEADER, kind);
      packet := new Byte[HEADER](i requires 0 <= i < HEADER => h[i]);
      assert packet[..] == h;
    }

    /** `SendUserData` with data: the ciphertext is sized first, then header and ciphertext are
        written into a packet of that size. */
    method SendUserData(k: Session, kind: nat, data: seq<Byte>) returns (packet: array<Byte>)
      requires Lawful(k)
      ensures fresh(packet) && packet[..] == Frame(k, WithData(kind, data))
    {
      var x := k.encrypt(data);
      packet := new Byte[HEADER + |x|](_ => 0);
      forall i | 0 <= i < |x| {
        packet[HEADER + i] := x[i];
      }
      var h := Header(packet.Length, Xor(kind, k.crc(data), 32));
      forall i | 0 <= i < HEADER {
        packet[i] := h[i];
      }
      assert packet[..] == h + x;
    }

    /** An incomplete packet always leaves free space for its remainder. */
    lemma RoomForRest()
      requires Valid() && pending != []
      ensures 0 < SizeOf(pending) - |pending| <= buf.Length - dataSize
    {
    }

    method WriteWord(at: nat, x: nat)
      requires at + 4 <= buf.Length
      modifies buf
      ensures buf[at..at + 4] == LittleEndian(x, 4)
      ensures forall j :: 0 <= j < buf.Length && !(at <= j < at + 4) ==> buf[j] == old(buf[j])
    {
      var w := LittleEndian(x, 4);
      buf[at], buf[at + 1], buf[at + 2], buf[at + 3] := w[0], w[1], w[2], w[3];
    }

    /** The `memcpy` that moves the bytes of the next packet to the front. */
    method MoveToFront(from: nat, n: nat)
      requires from + n <= buf.Length
      modifies buf
      ensures buf[..n] == old(buf[from..from + n])
    {
      var i := 0;
      while i < n
        invariant 0 <= i <= n
        invariant buf[..i] == old(buf[from..from + i])
        invariant forall j :: i <= j < buf.Length ==> buf[j] == old(buf[j])
      {
        buf[i] := buf[from + i];
        i := i + 1;
      }
    }

    /** A complete frame: decrypted in place and handed over. */
    method HandleFrame(k: Session, accept: UserData -> bool, total: nat, ghost frame: seq<Byte>) returns (ok: bool)
      requires Lawful(k) && HEADER <= total == |frame| <= buf.Length && buf[4..total] == frame[4..]
      modifies this`delivered, buf
      ensures forall j :: total <= j < buf.Length ==> buf[j] == old(buf[j])
      ensures match Open(k, frame)
              case None => !ok && delivered == old(delivered)
              case Some(d) => ok == accept(d) && delivered == old(delivered) + [d]
    {
      assert frame[4..8] == frame[4..][..4] == buf[4..total][..4] == buf[4..8];
      assert frame[HEADER..] == frame[4..][4..] == buf[4..total][4..] == buf[HEADER..total];
      var kind := FromLittleEndian(buf[4..8]);
      var data: seq<Byte> := [];
      if total - HEADER != 0 {
        var d := k.decrypt(buf[HEADER..total]);
        if d.None? {
          return false;
        }
        data := d.value;
        kind := Xor(kind, k.crc(data), 32);
        forall i | 0 <= i < |data| {
          buf[HEADER + i] := data[i];
        }
        WriteWord(4, kind);
      }
      delivered := delivered + [UserData(kind, data)];
      ok := accept(UserData(kind, data));
    }

    /** The stream seen so far: what waits and what came behind it. */
    ghost function Seen(left: nat): seq<Byte>
      requires dataSize + left <= buf.Length
      reads this, buf
    {
      pending + buf[dataSize..dataSize + left]
    }

    /** The header word holds what is missing of the packet at the front. */
    lemma FrontSize(left: nat)
      requires Valid() && 0 < left && dataSize + left <= buf.Length && HEADER <= dataSize + left
      ensures FromLittleEndian(buf[..4]) + dataSize == SizeOf(Seen(left))
      ensures Seen(left)[4..] == buf[4..dataSize + left]
    {
      var s := Seen(left);
      if pending == [] {
        assert s == buf[..left] && s[..4] == buf[..4];
      } else {
        assert s[..4] == pending[..4] && s[4..] == pending[4..] + buf[dataSize..dataSize + left];
      }
    }

    /** The packet at the front is still incomplete: all bytes are kept. */
    method Keep(left: nat, size: nat)
      requires Valid() && 0 < left < size && dataSize + left <= buf.Length && HEADER <= dataSize + left
      requires size == FromLittleEndian(buf[..4]) && HEADER <= dataSize + size <= buf.Length
      modifies this`dataSize, this`pending, buf
      ensures Valid() && pending == old(Seen(left))
    {
      FrontSize(left);
      ghost var s := Seen(left);
      Word32(size - left);
      WriteWord(0, size - left);
      hide LittleEndian, FromLittleEndian, SizeOf;
      dataSize, pending := dataSize + left, s;
      assert buf[4..dataSize] == s[4..];
    }

    /** The header word of a complete packet has counted down to zero. */
    method ClearHeader(total: nat, end: nat, ghost s: seq<Byte>)
      requires 4 <= total <= end == |s| <= buf.Length && buf[4..end] == s[4..]
      modifies buf
      ensures buf[4..total] == s[..total][4..] && buf[total..end] == s[total..]
    {
      hide LittleEndian;
      WriteWord(0, 0);
      assert buf[4..end] == s[4..];
      Halves(s, buf[..], total, end);
    }

    lemma EmptyValid()
      requires dataSize == 0 && pending == [] && buf.Length < ULONG_RANGE
      ensures Valid()
    {
    }

    /** The packet f at the front is complete: it is handed over, and what came behind it is moved
        to the front. */
    method Take(k: Session, accept: UserData -> bool, left: nat, size: nat, ghost f: seq<Byte>, ghost t: seq<Byte>)
      returns (ok: bool)
      requires Lawful(k) && Valid() && 0 < left && size <= left
               && HEADER <= dataSize + size <= dataSize + left <= buf.Length
      requires FromLittleEndian(buf[..4]) == size
      requires Seen(left) == f + t && |f| == dataSize + size
      modifies this, buf
      ensures Valid() && pending == [] && Seen(left - size) == t
      ensures match Open(k, f)
              case None => !ok && delivered == old(delivered)
              case Some(d) => ok == accept(d) && delivered == old(delivered) + [d]
    {
      FrontSize(left);
      var total := dataSize + size;
      ghost var s := Seen(left);
      assert f == s[..total] && t == s[total..];
      hide *;
      ClearHeader(total, dataSize + left, s);
      dataSize, pending := 0, [];
      ok := HandleFrame(k, accept, total, f);
      assert buf[total..total + |t|] == t;
      MoveToFront(total, left - size);
      EmptyValid();
      SeenEmpty(left - size);
    }

    lemma SeenEmpty(left: nat)
      requires dataSize == 0 && pending == [] && left <= buf.Length
      ensures Seen(left) == buf[..left]
    {
    }

    /** The header test, made only at the start of a packet, and the bytes still missing. */
    method Missing(left: nat) returns (ok: bool, size: nat)
      requires Valid() && 0 < left && dataSize + left <= buf.Length
      ensures var s := Seen(left);
              && s != [] && |s| == dataSize + left
              && (!ok ==> |s| < HEADER || SizeOf(s) > buf.Length || SizeOf(s) < HEADER)
              && (ok ==>
                      |s| >= HEADER && FromLittleEndian(buf[..4]) == size
                      && HEADER <= dataSize + size == SizeOf(s) <= buf.Length)
    {
      if dataSize == 0 && left < HEADER {
        return false, 0;
      }
      FrontSize(left);
      size := FromLittleEndian(buf[..4]);
      // The original does not test the last condition: it goes on and decrypts with a wrapped length.
      ok := !(dataSize == 0 && (size > buf.Length || size < HEADER));
    }

    /** One round of the loop: at most one packet is handed over, and t is what then remains. */
    method Round(k: Session, accept: UserData -> bool, left: nat, ghost s: seq<Byte>)
      returns (more: bool, ok: bool, left': nat, ghost d: seq<UserData>, ghost t: seq<Byte>)
      requires Valid() && Lawful(k) && 0 < left && dataSize + left <= buf.Length && s == Seen(left)
      modifies this, buf
      ensures delivered == old(delivered) + d
      ensures var m := Meaning(k, accept, s, buf.Length);
              if more then
                var n := Meaning(k, accept, t, buf.Length);
                && Valid() && 0 < left' < left && dataSize + left' <= buf.Length && t == Seen(left')
                && m == Effect(d + n.out, n.ok, n.rest)
              else m.out == d && m.ok == ok && (ok ==> Valid() && pending == m.rest)
    {
      var size;
      ok, size := Missing(left);
      hide *;
      more, left', d, t := false, 0, [], [];
      if !ok {
        MeaningFails(k, accept, s, buf.Length);
        return;
      }
      if left < size {
        WaitingNow(left, size);
        MeaningWaits(k, accept, s, buf.Length);
        Keep(left, size);
        return;
      }
      ghost var total := dataSize + size;
      ghost var f := s[..total];
      t := s[total..];
      SizeOfPrefix(s, total);
      assert s == f + t;
      MeaningNext(k, accept, f, t, buf.Length);
      ok := Take(k, accept, left, size, f, t);
      if Open(k, f).Some? {
        d := [Open(k, f).value];
      }
      if ok {
        if left == size {
          EmptyWaits(k, accept);
        } else {
          more, left' := true, left - size;
        }
      }
    }

    lemma EmptyWaits(k: Session, accept: UserData -> bool)
      ensures Meaning(k, accept, [], buf.Length) == Effect([], true, [])
    {
    }

    lemma WaitingNow(left: nat, size: nat)
      requires Valid() && left < size && dataSize + left <= buf.Length && HEADER <= |Seen(left)|
      requires dataSize + size == SizeOf(Seen(left)) <= buf.Length
      ensures Waiting(Seen(left), buf.Length)
    {
    }

    /** `OnRecv` for cb bytes that arrived behind what waits in the buffer: the frames that are
        now complete are handed over in order, and the rest waits. A header size below 8, for
        which the code computes a wrapped length, counts as failure. */
    method OnRecv(k: Session, accept: UserData -> bool, cb: nat) returns (ok: bool)
      requires Valid() && Lawful(k) && 0 < cb && dataSize + cb <= buf.Length
      modifies this, buf
      ensures var m := Meaning(k, accept, old(Seen(cb)), buf.Length);
              && delivered == old(delivered) + m.out && ok == m.ok
              && (ok ==> Valid() && pending == m.rest)
    {
      hide *;
      ghost var s := Seen(cb);
      ghost var m0 := Meaning(k, accept, s, buf.Length);
      ghost var done: seq<UserData> := [];
      var left, more := cb, true;
      ok := false;
      while more
        invariant more ==> 0 < left && dataSize + left <= buf.Length && Valid() && s == Seen(left)
        invariant delivered == old(delivered) + done
        invariant more ==> m0 == Effect(done + Meaning(k, accept, s, buf.Length).out,
                                        Meaning(k, accept, s, buf.Length).ok, Meaning(k, accept, s, buf.Length).rest)
        invariant !more ==> m0.out == done && m0.ok == ok && (ok ==> Valid() && pending == m0.rest)
        decreases more, left
      {
        ghost var d;
        more, ok, left, d, s := Round(k, accept, left, s);
        done := done + d;
      }
    }

    /** Bytes arrive in the free part of the buffer. */
    method Arrive(bytes: seq<Byte>)
      requires Valid() && dataSize + |bytes| <= buf.Length
      modifies buf
      ensures Valid() && Seen(|bytes|) == pending + bytes
    {
      ghost var before := buf[..];
      forall i | 0 <= i < |bytes| {
        buf[dataSize + i] := bytes[i];
      }
      assert buf[..dataSize] == before[..dataSize];
      assert dataSize >= 4 ==> buf[..4] == buf[..dataSize][..4] == before[..4];
      assert dataSize >= 4 ==> buf[4..dataSize] == buf[..dataSize][4..] == before[4..dataSize];
      assert buf[dataSize..dataSize + |bytes|] == bytes;
    }

    /** The first n bytes of the stream have been received without failure. */
    ghost predicate Received(k: Session, ps: seq<Send>, wire: seq<Byte>, n: nat)
      requires n <= |wire|
      reads this, buf
    {
      Valid() && Parse(wire[..n], buf.Length).verdict == Fine && pending == Parse(wire[..n], buf.Length).rest
    }

    /** One receive, of as many bytes as the system delivers into the free space. */
    method RecvOne(k: Session, accept: UserData -> bool, wire: seq<Byte>, pos: nat, ghost ps: seq<Send>)
      returns (ok: bool, cb: nat, ghost d: seq<UserData>)
      requires pos < |wire| && Received(k, ps, wire, pos) && 0 < buf.Length && Lawful(k)
               && AllSendable(k, ps, buf.Length)
      requires wire <= Stream(k, ps) && AllAccepted(accept, ps)
      modifies this, buf
      ensures 0 < cb && pos + cb <= |wire| && (ok <==> !(0 < Whole(k, ps, pos + cb).1 < HEADER))
      ensures ok ==> Received(k, ps, wire, pos + cb)
      ensures delivered == old(delivered) + d && Complete(k, ps, pos + cb) == Complete(k, ps, pos) + d
    {
      hide Lawful, AllSendable, AllAccepted, Stream, Whole, Parse, Complete, Valid, Meaning;
      FreeSpace();
      cb :| 0 < cb <= buf.Length - dataSize && pos + cb <= |wire|;
      ghost var a, x := wire[..pos], wire[pos..pos + cb];
      assert a + x == wire[..pos + cb];
      Arrive(wire[pos..pos + cb]);
      RecvStep(k, accept, ps, a, x, buf.Length);
      d := Meaning(k, accept, Seen(cb), buf.Length).out;
      ok := OnRecv(k, accept, cb);
    }

    /** One receive after another over (a beginning of) the stream of sent packets: after all calls exactly
        the packets received completely have been handed over, as sent and in order; and a call fails
        exactly if it ends inside a header. */
    method RecvAll(k: Session, accept: UserData -> bool, wire: seq<Byte>, ghost ps: seq<Send>)
      returns (ok: bool, ghost chunks: seq<seq<Byte>>)
      requires Valid() && pending == [] && 0 < buf.Length && Lawful(k) && AllSendable(k, ps, buf.Length)
      requires wire <= Stream(k, ps) && AllAccepted(accept, ps)
      modifies this, buf
      ensures Concat(chunks) <= wire && (ok ==> Concat(chunks) == wire)
      ensures ok <==> HeadersWhole(k, ps, chunks, 0)
      ensures delivered == old(delivered) + Complete(k, ps, |Concat(chunks)|)
    {
      Nothing(k, ps, wire);
      hide *;
      ghost var before := delivered;
      var pos := 0;
      chunks, ok := [], true;
      assert before + [] == before;
      while pos < |wire|
        invariant 0 <= pos <= |wire| && Received(k, ps, wire, pos) && ok
        invariant Concat(chunks) == wire[..pos] && HeadersWhole(k, ps, chunks, 0)
        invariant delivered == before + Complete(k, ps, pos)
        decreases |wire| - pos
      {
        var cb;
        ghost var d;
        ok, cb, d := RecvOne(k, accept, wire, pos, ps);
        AppendBoth(before, Complete(k, ps, pos), d);
        HeadersNext(k, ps, chunks, wire[pos..pos + cb], 0);
        AppendSlice(wire, pos, pos + cb);
        chunks, pos := chunks + [wire[pos..pos + cb]], pos + cb;
        if !ok {
          return;
        }
      }
    }

    lemma Nothing(k: Session, ps: seq<Send>, wire: seq<Byte>)
      requires Valid() && pending == []
      ensures Received(k, ps, wire, 0) && Concat([]) == wire[..0]
      ensures Complete(k, ps, 0) == [] && HeadersWhole(k, ps, [], 0)
    {
      assert wire[..0] == [];
      ParseCases([], buf.Length);
    }

    lemma FreeSpace()
      requires Valid() && 0 < buf.Length
      ensures dataSize < buf.Length
    {
    }
  }

  lemma AppendBoth<T>(a: seq<T>, b: seq<T>, c: seq<T>)
    ensures a + b + c == a + (b + c)
  {
  }

  lemma AppendSlice<T>(s: seq<T>, i: nat, j: nat)
    requires i <= j <= |s|
    ensures s[..i] + s[i..j] == s[..j]
  {
  }

  lemma Halves(s: seq<Byte>, b: seq<Byte>, n: nat, end: nat)
    requires 4 <= n <= end == |s| <= |b| && b[4..end] == s[4..]
    ensures b[4..n] == s[..n][4..] && b[n..end] == s[n..]
  {
    var t := b[4..end];
    assert forall i :: 0 <= i < |t| ==> t[i] == b[4 + i] && t[i] == s[4 + i];
    assert b[4..n] == t[..n - 4] && b[n..end] == t[n - 4..];
    assert s[..n][4..] == t[..n - 4] && s[n..] == t[n - 4..];
  }

  lemma SizeOfPrefix(s: seq<Byte>, n: nat)
    requires 4 <= n <= |s|
    ensures SizeOf(s[..n]) == SizeOf(s)
  {
    assert s[..n][..4] == s[..4];
  }
}
