/** The UDP session object: the slot array searched and filled in place, and the fragmenting
    sender. */
module UdpEndpoint {
  import opened Words
  import opened Bytes
  import opened Fragments
  import opened Reassembly

  datatype SendStatus = Sent | SendFailed | TooLong

  class Endpoint {
    const msgb: array<Slot>
    var M: nat
    /** Every datagram handed to the socket, oldest first. */
    ghost var wire: seq<Fragment>
    /** Every call of `OnUserData`, oldest first. */
    ghost var delivered: seq<Message>

    ghost predicate Valid()
      reads this, msgb
    {
      M < 0x10000 && Shaped(msgb[..])
    }

    constructor ()
      ensures Valid() && wire == [] && delivered == [] && fresh(msgb)
      ensures forall i :: 0 <= i < SLOTS ==> Free(msgb[i]) && msgb[i].M == NO_MESSAGE
    {
      M := 0;
      wire, delivered := [], [];
      msgb := new Slot[SLOTS](_ => Slot(NoBits(), NO_MESSAGE, 0, 0, 0, seq(BUFFER, _ => 0)));
    }

    /** The slot loop of `Init`. */
    method Init()
      requires Valid()
      modifies msgb
      ensures Valid() && msgb[..] == Reset(old(msgb[..]))
    {
      var n := 0;
      while n < msgb.Length
        invariant 0 <= n <= msgb.Length == SLOTS
        invariant forall i :: 0 <= i < n ==> msgb[i] == Reset(old(msgb[..]))[i]
        invariant forall i :: n <= i < msgb.Length ==> msgb[i] == old(msgb[i])
      {
        msgb[n] := msgb[n].(M := NO_MESSAGE, bits := NoBits());
        n := n + 1;
      }
    }

    /** One pass over the slots: the slot of the message, else the first free one, else the
        eldest that is older than 999 ms. */
    method Get(M: nat, cbMsg: nat, now: nat) returns (slot: nat)
      requires Valid()
      modifies msgb
      ensures Valid() && (slot, msgb[..]) == Got(old(msgb[..]), M, cbMsg, now)
    {
      ghost var ss := msgb[..];
      var free, eldest, age, i := msgb.Length, msgb.Length, 0, 0;
      while i < msgb.Length
        invariant 0 <= i <= msgb.Length == |ss| && msgb[..] == ss
        invariant i <= Find(ss, M)
        invariant free == if FirstFree(ss) < i then FirstFree(ss) else |ss|
        invariant (age, eldest) == Eldest(ss, now, i)
      {
        assert msgb[i] == ss[i];
        if msgb[i].M == M {
          return if cbMsg == msgb[i].length then i else msgb.Length;
        }
        if free == msgb.Length && Free(msgb[i]) {
          free := i;
        }
        var dt := Age(msgb[i], now);
        if age < dt {
          age := dt;
          if 999 < dt {
            eldest := i;
          }
        }
        i := i + 1;
      }
      slot := if free < msgb.Length then free else eldest;
      if slot < msgb.Length {
        msgb[slot] := msgb[slot].(length := cbMsg, need := U32(cbMsg), M := M);
      }
    }

    method Receive(packet: Fragment, now: nat) returns (status: Status)
      requires Valid() && Fits(packet)
      modifies this`delivered, msgb
      ensures Valid()
      ensures var (ss, st, d) := OnData(old(msgb[..]), packet, now);
              && msgb[..] == ss && status == st
              && delivered == old(delivered) + (if d.Some? then [d.value] else [])
    {
      var slot := Get(packet.M, packet.length, now);
      if slot == msgb.Length {
        return Success;
      }
      ghost var ss := msgb[..];
      var N := packet.N;
      if MAX_FRAGMENTS > N && !msgb[slot].bits[N] {
        msgb[slot] := msgb[slot].(bits := msgb[slot].bits[N := true]);
        msgb[slot] := msgb[slot].(buf := Put(msgb[slot].buf, N * MAX_PACKET, packet.buf), tick := now);
        var need := msgb[slot].need;
        msgb[slot] := msgb[slot].(need := U32(need - |packet.buf|));
        if need == U32(|packet.buf|) {
          delivered := delivered + [Message(packet.kind, msgb[slot].buf[..packet.length])];
          msgb[slot] := msgb[slot].(bits := NoBits());
        }
        assert Contiguous(NoBits()) by { IncrementBlock(NoBits(), 0); }
        hide Contiguous;
        assert msgb[slot] == Filled(ss[slot], packet, now).0;
        assert msgb[..] == ss[slot := msgb[slot]];
        return Success;
      }
      return BadData;
    }

    /** One encrypted datagram; encryption and the socket may fail. */
    method SendMsg(f: Fragment) returns (ok: bool)
      modifies this`wire
      ensures wire == old(wire) + (if ok then [f] else [])
    {
      ok := *;
      if ok {
        wire := wire + [f];
      }
    }

    /** The first k fragments of the message are sent, all of them exactly on success; a message
        that is too long sends nothing and uses no number. */
    method SendUserData(kind: nat, data: seq<Byte>) returns (status: SendStatus)
      requires Valid()
      modifies this`M, this`wire
      ensures Valid()
      ensures status == TooLong <==> !Sendable(Message(kind, data))
      ensures status == TooLong ==> M == old(M) && wire == old(wire)
      ensures status != TooLong ==>
                && M == (old(M) + 1) % 0x10000
                && var fs := Cut(Message(kind, data), M);
                   exists k :: 0 <= k <= |fs| && wire == old(wire) + fs[..k] && (status == Sent <==> k == |fs|)
    {
      if MAX_PACKET * MAX_FRAGMENTS < |data| {
        return TooLong;
      }
      ghost var m := Message(kind, data);
      M := (M + 1) % 0x10000;
      var pb, cb, N := 0, |data|, 0;
      ghost var fs := Cut(m, M);
      assert wire == old(wire) + fs[..0];
      while true
        invariant 0 <= N < FragmentCount(|data|) == |fs| <= MAX_FRAGMENTS
        invariant pb == N * MAX_PACKET && pb + cb == |data|
        invariant M == (old(M) + 1) % 0x10000 && fs == Cut(m, M)
        invariant wire == old(wire) + fs[..N]
        decreases FragmentCount(|data|) - N
      {
        var s := if cb < MAX_PACKET then cb else MAX_PACKET;
        assert fs[N] == Fragment(|data|, kind, M, N, data[pb..pb + s]);
        assert fs[..N + 1] == fs[..N] + [fs[N]];
        var ok := SendMsg(Fragment(|data|, kind, M, N, data[pb..pb + s]));
        if !ok {
          assert wire == old(wire) + fs[..N];
          return SendFailed;
        }
        N := N + 1;
        pb, cb := pb + s, cb - s;
        if cb == 0 {
          assert fs[..N] == fs;
          return Sent;
        }
      }
    }
  }
}
