/** What the receiver does beyond new fragments of unfinished messages: fragments that name a
    finished message, reused numbers, and a message that evicts another one. */
module Duplicates {
  import opened Words
  import opened Bytes
  import opened Fragments
  import opened Reassembly
  import opened RoundTrip

  /** Whatever number and length a fragment announces, two slots never name the same message. */
  lemma DistinctKept(ss: seq<Slot>, M: nat, length: nat, now: nat)
    requires DistinctSlots(ss)
    ensures DistinctSlots(Got(ss, M, length, now).1)
  {
    hide U32, Eldest;
  }

  lemma DistinctAfter(ss: seq<Slot>, f: Fragment, now: nat)
    requires Shaped(ss) && Fits(f) && DistinctSlots(ss)
    ensures DistinctSlots(OnData(ss, f, now).0)
  {
    DistinctKept(ss, f.M, f.length, now);
    hide Contiguous, U32, Put, Got;
  }

  // ---- After completion --------------------------------------------------------------

  /** A slot of a finished message of this length, refilled with the fragments in b. */
  predicate Spent(s: Slot, length: nat, b: Bits) {
    && |s.buf| == BUFFER && 0 < length <= BUFFER && s.length == length && s.bits == b
    && s.need == U32(Missing(length, b, FragmentCount(length)) - length)
  }

  /** Delivery leaves the slot spent. */
  lemma DeliveryLeavesSpent(s: Slot, m: Message, b: Bits, M: nat, n: nat, now: nat)
    requires SlotOk(s, m, b) && 0 < |m.data| && n < FragmentCount(|m.data|) && !b[n]
    requires Filled(s, FragmentOf(m, M, n), now).1
    ensures Spent(Filled(s, FragmentOf(m, M, n), now).0, |m.data|, NoBits())
  {
    var k := FragmentCount(|m.data|);
    CounterExact(m, b, n);
    MissingAll(|m.data|, NoBits(), k);
    hide Missing, Contiguous, BytesOk, Put;
  }

  lemma SpentNeed(length: nat, b: Bits, n: nat)
    requires 0 < length <= BUFFER && n < FragmentCount(length) && !b[n]
    ensures var k := FragmentCount(length);
            var need, len := U32(Missing(length, b, k) - length), FragmentLength(length, n);
            need != U32(len) && U32(need - len) == U32(Missing(length, b[n := true], k) - length)
  {
    var k := FragmentCount(length);
    MissingSet(length, b, n, k);
    MissingBound(length, b, k);
    hide Missing;
    Wrapped(Missing(length, b, k), length, FragmentLength(length, n));
  }

  /** A counter that has gone below zero stays there while it is counted down further. */
  lemma Wrapped(missing: nat, length: nat, len: nat)
    requires 0 < len <= missing <= length <= BUFFER
    ensures U32(missing - length) != U32(len) && U32(U32(missing - length) - len) == U32(missing - len - length)
  {
    if missing < length {
      assert U32(missing - length) == ULONG_RANGE + missing - length;
    }
  }

  lemma {:induction false} MissingBound(length: nat, b: Bits, k: nat)
    requires k <= FragmentCount(length) && k <= MAX_FRAGMENTS
    ensures Missing(length, b, k) <= Missing(length, NoBits(), k)
    ensures Missing(length, b, k) <= if k == FragmentCount(length) then length else k * MAX_PACKET
  {
    if k > 0 {
      MissingBound(length, b, k - 1);
    }
    MissingAll(length, NoBits(), k);
  }

  /** Refilling a spent slot never completes it again: the counter has wrapped below zero. */
  lemma SpentStays(s: Slot, m: Message, b: Bits, M: nat, n: nat, now: nat)
    requires Spent(s, |m.data|, b) && n < FragmentCount(|m.data|) && !b[n]
    ensures var (s', done) := Filled(s, FragmentOf(m, M, n), now);
            !done && s'.M == s.M && !Free(s') && Spent(s', |m.data|, b[n := true])
  {
    SpentNeed(|m.data|, b, n);
    var s' := Filled(s, FragmentOf(m, M, n), now).0;
    hide Missing, Contiguous;
    assert s'.bits[n];
  }

  /** A fragment of a message of this number and length, at the receiver. */
  lemma SpentStep(ss: seq<Slot>, i: nat, b: Bits, m: Message, n: nat, now: nat) returns (b': Bits)
    requires Shaped(ss) && DistinctSlots(ss) && i < |ss| && ss[i].M < NO_MESSAGE
    requires Spent(ss[i], |m.data|, b) && n < FragmentCount(|m.data|)
    ensures var (ts, status, d) := OnData(ss, FragmentOf(m, ss[i].M, n), now);
            && Shaped(ts) && DistinctSlots(ts) && ts == ss[i := ts[i]] && ts[i].M == ss[i].M
            && Spent(ts[i], |m.data|, b') && d == None && (status == BadData <==> b[n])
  {
    var f := FragmentOf(m, ss[i].M, n);
    DistinctAfter(ss, f, now);
    assert Find(ss, f.M) == i;
    assert ss == ss[i := ss[i]];
    if b[n] {
      b' := b;
      hide Filled, Spent;
    } else {
      b' := b[n := true];
      SpentStays(ss[i], m, b, ss[i].M, n, now);
      hide Filled, Put, Missing, DistinctSlots;
    }
  }

  /** A fragment some sender made of some message. */
  datatype Piece = Piece(m: Message, M: nat, n: nat)

  predicate PieceOk(p: Piece) {
    Sendable(p.m) && p.M < 0x10000 && p.n < FragmentCount(|p.m.data|)
  }

  predicate PiecesOk(ps: seq<Piece>) {
    forall j :: 0 <= j < |ps| ==> PieceOk(ps[j])
  }

  function Handle(ss: seq<Slot>, p: Piece, now: nat): (r: (seq<Slot>, Status, Option<Message>))
    requires Shaped(ss) && PieceOk(p)
    ensures Shaped(r.0)
  {
    OnData(ss, FragmentOf(p.m, p.M, p.n), now)
  }

  /** Slot i names message M before and after every one of the fragments. */
  predicate StillNames(ss: seq<Slot>, i: nat, M: nat, ps: seq<Piece>, nows: seq<nat>)
    requires Shaped(ss) && PiecesOk(ps) && |nows| == |ps| && i < SLOTS
    decreases |ps|
  {
    ss[i].M == M && (ps == [] || StillNames(Handle(ss, ps[0], nows[0]).0, i, M, ps[1..], nows[1..]))
  }

  /** How often the fragments that name M make the receiver call `OnUserData`. */
  function Deliveries(ss: seq<Slot>, M: nat, ps: seq<Piece>, nows: seq<nat>): nat
    requires Shaped(ss) && PiecesOk(ps) && |nows| == |ps|
    decreases |ps|
  {
    if ps == [] then 0
    else
      var (ts, _, d) := Handle(ss, ps[0], nows[0]);
      (if ps[0].M == M && d.Some? then 1 else 0) + Deliveries(ts, M, ps[1..], nows[1..])
  }

  /** A fragment that names another message leaves the slot alone or takes it. */
  lemma OtherPiece(ss: seq<Slot>, i: nat, p: Piece, now: nat)
    requires Shaped(ss) && DistinctSlots(ss) && i < SLOTS && PieceOk(p) && p.M != ss[i].M
    ensures var ts := Handle(ss, p, now).0;
            DistinctSlots(ts) && (ts[i] == ss[i] || ts[i].M == p.M)
  {
    DistinctAfter(ss, FragmentOf(p.m, p.M, p.n), now);
    hide Contiguous, U32, Put, Eldest;
  }

  /** One more fragment, whichever, while the slot keeps its name. */
  lemma SpentPiece(ss: seq<Slot>, i: nat, length: nat, b: Bits, p: Piece, now: nat) returns (b': Bits)
    requires Shaped(ss) && DistinctSlots(ss) && i < SLOTS && ss[i].M < NO_MESSAGE && PieceOk(p)
    requires Spent(ss[i], length, b) && Handle(ss, p, now).0[i].M == ss[i].M
    ensures var (ts, _, d) := Handle(ss, p, now);
            DistinctSlots(ts) && Spent(ts[i], length, b') && (p.M == ss[i].M ==> d == None)
  {
    b' := b;
    hide OnData, DistinctSlots;
    if p.M != ss[i].M {
      OtherPiece(ss, i, p, now);
    } else if |p.m.data| == length {
      b' := SpentStep(ss, i, b, p.m, p.n, now);
    } else {
      ReusedNumberDropped(ss, i, FragmentOf(p.m, p.M, p.n), now);
    }
  }

  /** From a spent slot its message is never delivered, whatever fragments of whatever messages
      come and in whatever order, as long as the slot still names it. */
  lemma {:induction false} NeverAgain(ss: seq<Slot>, i: nat, length: nat, b: Bits, M: nat, ps: seq<Piece>,
                                      nows: seq<nat>)
    requires Shaped(ss) && DistinctSlots(ss) && i < SLOTS && M < NO_MESSAGE && Spent(ss[i], length, b)
    requires PiecesOk(ps) && |nows| == |ps| && StillNames(ss, i, M, ps, nows)
    ensures Deliveries(ss, M, ps, nows) == 0
    decreases |ps|
  {
    if ps != [] {
      assert PieceOk(ps[0]) && PiecesOk(ps[1..]);
      hide Handle, Spent, DistinctSlots, PieceOk, PiecesOk;
      assert Handle(ss, ps[0], nows[0]).0[i].M == M;
      var b' := SpentPiece(ss, i, length, b, ps[0], nows[0]);
      NeverAgain(Handle(ss, ps[0], nows[0]).0, i, length, b', M, ps[1..], nows[1..]);
    }
  }

  /** After the arrival that delivers a message of a session, it is not delivered again for as
      long as its slot names it, whatever comes. */
  lemma DeliveredOnlyOnce(ms: Messages, arr: seq<Arrival>, ss: seq<Slot>, a: Arrival, now: nat) returns (i: nat)
    requires Inv(ms, arr, ss) && ArrivalOk(ms, a) && a !in arr && Complete(ms, arr + [a], a.M)
    requires |IncompleteSet(ms, arr) + {a.M}| <= SLOTS
    ensures var (ts, _, d) := Arrive(ms, ss, a, now);
            && i < SLOTS && d == Some(ms[a.M]) && ts[i].M == a.M
            && forall ps, nows | PiecesOk(ps) && |nows| == |ps| && StillNames(ts, i, a.M, ps, nows) ::
                 Deliveries(ts, a.M, ps, nows) == 0
  {
    var m, b := ms[a.M], Arrived(arr, a.M);
    ArrivalStep(ms, arr, ss, a, now);
    GetOk(ms, arr, ss, a, now);
    ArrivedBits(ms, arr, a);
    var (i', gs) := Got(ss, a.M, |m.data|, now);
    i := i';
    var ts := Arrive(ms, ss, a, now).0;
    SpentSlot(ss, m, a.M, a.N, b, now);
    hide Arrive, Got, Arrived, SlotOk, Complete, IncompleteSet, Spent, SlotInv, Incomplete;
    forall ps, nows | PiecesOk(ps) && |nows| == |ps| && StillNames(ts, i, a.M, ps, nows)
      ensures Deliveries(ts, a.M, ps, nows) == 0
    {
      NeverAgain(ts, i, |m.data|, NoBits(), a.M, ps, nows);
    }
  }

  lemma SpentSlot(ss: seq<Slot>, m: Message, M: nat, n: nat, b: Bits, now: nat)
    requires Shaped(ss) && Sendable(m) && 0 < |m.data| && n < FragmentCount(|m.data|) && !b[n]
    requires GetsSlot(ss, Got(ss, M, |m.data|, now), m, M, b) && AllSet(b[n := true], FragmentCount(|m.data|))
    ensures var i := Got(ss, M, |m.data|, now).0;
            && i < SLOTS && OnData(ss, FragmentOf(m, M, n), now).0[i].M == M
            && Spent(OnData(ss, FragmentOf(m, M, n), now).0[i], |m.data|, NoBits())
  {
    var (i, gs) := Got(ss, M, |m.data|, now);
    FillOk(gs[i], m, b, M, n, now);
    DeliveryLeavesSpent(gs[i], m, b, M, n, now);
    hide SlotOk, Filled, Got, Spent;
  }

  /** The slot of a finished message delivers again on the next fragment exactly when the
      message is empty: an empty message is delivered once per datagram. */
  lemma AgainIffEmpty(s: Slot, m: Message, M: nat, n: nat, now: nat)
    requires Sendable(m) && |s.buf| == BUFFER && Free(s) && s.length == |m.data| && s.need == 0
    requires n < FragmentCount(|m.data|)
    ensures Filled(s, FragmentOf(m, M, n), now).1 <==> m.data == []
  {
    NoBitsContiguous();
    hide Contiguous;
  }

  /** A later message that reuses the number of a finished one but has another length is dropped
      without an error while a slot still names that number. */
  lemma ReusedNumberDropped(ss: seq<Slot>, i: nat, f: Fragment, now: nat)
    requires Shaped(ss) && Fits(f) && DistinctSlots(ss) && f.M < NO_MESSAGE
    requires i < |ss| && ss[i].M == f.M && ss[i].length != f.length
    ensures OnData(ss, f, now) == (ss, Success, None)
  {
    assert Find(ss, f.M) == i;
  }

  /** An evicted slot keeps the bits of the message it held: the fragment that evicts it is
      stored exactly when the old message lacked the fragment of the same index. */
  lemma EvictionKeepsBits(ss: seq<Slot>, f: Fragment, now: nat)
    requires Shaped(ss) && Fits(f) && f.N < MAX_FRAGMENTS
    requires Find(ss, f.M) == |ss| && FirstFree(ss) == |ss| && Eldest(ss, now, |ss|).1 < |ss|
    ensures var v := Eldest(ss, now, |ss|).1;
            var (ts, status, d) := OnData(ss, f, now);
            && ts[v].M == f.M && (status == Success <==> !ss[v].bits[f.N])
            && (status == BadData ==> ts[v] == ss[v].(length := f.length, need := U32(f.length), M := f.M))
  {
    hide Eldest, Contiguous, Put;
  }

  /** A slot taken over with the bits in `stale`, holding the fragments in `fed` that found their
      bit clear. */
  predicate Mixed(s: Slot, length: nat, stale: Bits, fed: Bits) {
    && |s.buf| == BUFFER && 0 < length <= BUFFER && s.length == length
    && s.bits == Both(stale, fed) && s.need == Missing(length, Stored(stale, fed), FragmentCount(length))
  }

  function Both(x: Bits, y: Bits): Bits {
    seq(MAX_FRAGMENTS, i requires 0 <= i < MAX_FRAGMENTS => x[i] || y[i])
  }

  function Stored(stale: Bits, fed: Bits): Bits {
    seq(MAX_FRAGMENTS, i requires 0 <= i < MAX_FRAGMENTS => fed[i] && !stale[i])
  }

  predicate Clear(b: Bits, k: nat)
    requires k <= MAX_FRAGMENTS
  {
    forall i :: 0 <= i < k ==> !b[i]
  }

  lemma FedBits(stale: Bits, fed: Bits, n: nat)
    requires n < MAX_FRAGMENTS && !fed[n]
    ensures stale[n] ==>
            Both(stale, fed[n := true]) == Both(stale, fed) && Stored(stale, fed[n := true]) == Stored(stale, fed)
    ensures !stale[n] ==>
              && !Both(stale, fed)[n] && !Stored(stale, fed)[n]
              && Both(stale, fed[n := true]) == Both(stale, fed)[n := true]
              && Stored(stale, fed[n := true]) == Stored(stale, fed)[n := true]
  {
  }

  lemma StoredAll(stale: Bits, fed: Bits, k: nat)
    requires k <= MAX_FRAGMENTS
    ensures AllSet(Stored(stale, fed), k) <==> AllSet(fed, k) && Clear(stale, k)
  {
    if AllSet(Stored(stale, fed), k) {
      forall i | 0 <= i < k ensures fed[i] && !stale[i] {
        assert Stored(stale, fed)[i];
      }
    }
    if AllSet(fed, k) && Clear(stale, k) {
      forall i | 0 <= i < k ensures Stored(stale, fed)[i] {
        assert fed[i] && !stale[i];
      }
    }
  }

  /** A fragment whose bit was clear, in a slot taken over. */
  lemma MixedFill(s: Slot, m: Message, stale: Bits, fed: Bits, M: nat, n: nat, now: nat)
    requires Mixed(s, |m.data|, stale, fed) && Sendable(m) && n < FragmentCount(|m.data|) && !fed[n] && !stale[n]
    ensures var (s', done) := Filled(s, FragmentOf(m, M, n), now);
            var fed', k := fed[n := true], FragmentCount(|m.data|);
            && (done <==> AllSet(fed', k) && Clear(stale, k)) && (!done ==> Mixed(s', |m.data|, stale, fed'))
  {
    FedBits(stale, fed, n);
    StoredAll(stale, fed[n := true], FragmentCount(|m.data|));
    NoBitsContiguous();
    CounterExact(m, Stored(stale, fed), n);
    hide Both, Stored, Missing, Contiguous, AllSet, Clear;
  }

  /** One fragment of the message in a slot taken over. */
  lemma MixedStep(ss: seq<Slot>, i: nat, stale: Bits, fed: Bits, p: Piece, now: nat)
    requires Shaped(ss) && DistinctSlots(ss) && i < SLOTS && PieceOk(p) && ss[i].M == p.M
    requires Mixed(ss[i], |p.m.data|, stale, fed) && !fed[p.n]
    ensures var (ts, _, d) := Handle(ss, p, now);
            var fed', k := fed[p.n := true], FragmentCount(|p.m.data|);
            && DistinctSlots(ts) && ts[i].M == p.M
            && (d.Some? <==> AllSet(fed', k) && Clear(stale, k))
            && (d == None ==> Mixed(ts[i], |p.m.data|, stale, fed'))
  {
    var f, k := FragmentOf(p.m, p.M, p.n), FragmentCount(|p.m.data|);
    DistinctAfter(ss, f, now);
    FedBits(stale, fed, p.n);
    assert ss[i].length == f.length && ss[i].bits[p.n] == stale[p.n];
    assert Find(ss, f.M) == i && ss == ss[i := ss[i]];
    if stale[p.n] {
      assert !Clear(stale, k);
      hide Filled, DistinctSlots, Both, Stored;
    } else {
      MixedFill(ss[i], p.m, stale, fed, p.M, p.n, now);
      hide DistinctSlots, Filled, Mixed, AllSet, Clear;
    }
  }

  /** The fragments still to come: those that name M are fragments of m not fed so far, none
      twice, and in the end all are fed. */
  predicate RestOf(ps: seq<Piece>, m: Message, M: nat, fed: Bits)
    requires Sendable(m)
  {
    && (forall j :: 0 <= j < |ps| && ps[j].M == M ==> ps[j].m == m && ps[j].n < MAX_FRAGMENTS && !fed[ps[j].n])
    && (forall j, l :: 0 <= j < l < |ps| && ps[j].M == M == ps[l].M ==> ps[j].n != ps[l].n)
    && (forall n :: 0 <= n < FragmentCount(|m.data|) && !fed[n] ==> Piece(m, M, n) in ps)
  }

  lemma AllFed(m: Message, M: nat, fed: Bits)
    requires Sendable(m) && RestOf([], m, M, fed)
    ensures AllSet(fed, FragmentCount(|m.data|))
  {
  }

  lemma RestNext(ps: seq<Piece>, m: Message, M: nat, fed: Bits)
    requires Sendable(m) && RestOf(ps, m, M, fed) && ps != [] && PiecesOk(ps)
    ensures ps[0].M != M ==> RestOf(ps[1..], m, M, fed)
    ensures ps[0].M == M ==> ps[0].m == m && !fed[ps[0].n] && RestOf(ps[1..], m, M, fed[ps[0].n := true])
  {
    assert PieceOk(ps[0]);
    forall n | 0 <= n < FragmentCount(|m.data|) && !fed[n] && (ps[0].M == M ==> n != ps[0].n)
           ensures Piece(m, M, n) in ps[1..] {
      var j :| 0 <= j < |ps| && ps[j] == Piece(m, M, n);
    }
  }

  lemma {:induction false} NoneToCome(ss: seq<Slot>, m: Message, M: nat, fed: Bits, ps: seq<Piece>, nows: seq<nat>)
    requires Shaped(ss) && PiecesOk(ps) && |nows| == |ps| && Sendable(m)
    requires RestOf(ps, m, M, fed) && AllSet(fed, FragmentCount(|m.data|))
    ensures Deliveries(ss, M, ps, nows) == 0
    decreases |ps|
  {
    if ps != [] {
      assert PieceOk(ps[0]) && PiecesOk(ps[1..]);
      RestNext(ps, m, M, fed);
      hide Handle, RestOf, PiecesOk;
      NoneToCome(Handle(ss, ps[0], nows[0]).0, m, M, fed, ps[1..], nows[1..]);
    }
  }

  /** A slot taken over delivers its new message, if all its fragments come once, exactly if the
      old bits below its fragment count were clear. */
  lemma {:induction false} MixedDelivers(ss: seq<Slot>, i: nat, m: Message, M: nat, stale: Bits, fed: Bits,
                                         ps: seq<Piece>, nows: seq<nat>)
    requires Shaped(ss) && DistinctSlots(ss) && i < SLOTS && ss[i].M == M < NO_MESSAGE && Sendable(m)
    requires Mixed(ss[i], |m.data|, stale, fed) && !AllSet(fed, FragmentCount(|m.data|))
    requires PiecesOk(ps) && |nows| == |ps| && RestOf(ps, m, M, fed) && StillNames(ss, i, M, ps, nows)
    ensures Deliveries(ss, M, ps, nows) == if Clear(stale, FragmentCount(|m.data|)) then 1 else 0
    decreases |ps|
  {
    var k := FragmentCount(|m.data|);
    if ps == [] {
      AllFed(m, M, fed);
    } else {
      var p, now, rest, later := ps[0], nows[0], ps[1..], nows[1..];
      assert PieceOk(p) && PiecesOk(rest);
      RestNext(ps, m, M, fed);
      hide Handle, RestOf, PiecesOk, Mixed, AllSet, Clear, DistinctSlots;
      var ts := Handle(ss, p, now).0;
      assert StillNames(ts, i, M, rest, later);
      if p.M != M {
        OtherPiece(ss, i, p, now);
        StaysMixed(ts, i, M, rest, later);
        MixedDelivers(ts, i, m, M, stale, fed, rest, later);
      } else {
        var fed' := fed[p.n := true];
        MixedStep(ss, i, stale, fed, p, now);
        if AllSet(fed', k) {
          NoneToCome(ts, m, M, fed', rest, later);
        } else {
          MixedDelivers(ts, i, m, M, stale, fed', rest, later);
        }
      }
    }
  }

  lemma StaysMixed(ss: seq<Slot>, i: nat, M: nat, ps: seq<Piece>, nows: seq<nat>)
    requires Shaped(ss) && PiecesOk(ps) && |nows| == |ps| && i < SLOTS && StillNames(ss, i, M, ps, nows)
    ensures ss[i].M == M
  {
    hide Handle;
  }

  /** The evicting message: its slot after `get`. */
  lemma TakenOver(ss: seq<Slot>, m: Message, M: nat, now: nat)
    requires Shaped(ss) && Sendable(m) && 0 < |m.data|
    requires Find(ss, M) == |ss| && FirstFree(ss) == |ss| && Eldest(ss, now, |ss|).1 < |ss|
    ensures var v := Eldest(ss, now, |ss|).1;
            Got(ss, M, |m.data|, now) == (v, ss[v := ss[v].(length := |m.data|, need := U32(|m.data|), M := M)])
            && Mixed(Got(ss, M, |m.data|, now).1[v], |m.data|, ss[v].bits, NoBits())
  {
    var v := Eldest(ss, now, |ss|).1;
    assert Both(ss[v].bits, NoBits()) == ss[v].bits && Stored(ss[v].bits, NoBits()) == NoBits();
    MissingAll(|m.data|, NoBits(), FragmentCount(|m.data|));
    hide Eldest, Missing;
  }

  lemma SameAfterGet(ss: seq<Slot>, gs: seq<Slot>, v: nat, p: Piece, now: nat)
    requires Shaped(ss) && PieceOk(p) && v < |ss| && Got(ss, p.M, |p.m.data|, now) == (v, gs) && Find(gs, p.M) == v
    requires Shaped(gs) && gs[v].length == |p.m.data|
    ensures Handle(gs, p, now) == Handle(ss, p, now)
  {
    assert Got(gs, p.M, |p.m.data|, now) == (v, gs);
    hide Got, Filled;
  }

  lemma SameFrom(ss: seq<Slot>, gs: seq<Slot>, i: nat, M: nat, ps: seq<Piece>, nows: seq<nat>)
    requires Shaped(ss) && Shaped(gs) && PiecesOk(ps) && |nows| == |ps| > 0 && i < SLOTS && PieceOk(ps[0])
    requires Handle(gs, ps[0], nows[0]) == Handle(ss, ps[0], nows[0]) && gs[i].M == M
    requires StillNames(Handle(ss, ps[0], nows[0]).0, i, M, ps[1..], nows[1..])
    ensures StillNames(gs, i, M, ps, nows) && Deliveries(gs, M, ps, nows) == Deliveries(ss, M, ps, nows)
  {
    hide Handle;
  }

  /** A message that evicts another one, all its fragments coming once, with anything in between
      that leaves it its slot, is delivered exactly if the bits it found below its fragment count
      were all clear. */
  lemma EvictorDelivered(ss: seq<Slot>, m: Message, M: nat, ps: seq<Piece>, nows: seq<nat>)
    requires Shaped(ss) && DistinctSlots(ss) && Sendable(m) && 0 < |m.data| && M < NO_MESSAGE
    requires PiecesOk(ps) && |nows| == |ps| > 0 && ps[0].M == M && RestOf(ps, m, M, NoBits())
    requires Find(ss, M) == |ss| && FirstFree(ss) == |ss| && Eldest(ss, nows[0], |ss|).1 < |ss| == SLOTS
    requires PieceOk(ps[0]) && StillNames(Handle(ss, ps[0], nows[0]).0, Eldest(ss, nows[0], |ss|).1, M, ps[1..],
              nows[1..])
    ensures var v := Eldest(ss, nows[0], |ss|).1;
            Deliveries(ss, M, ps, nows) == if Clear(ss[v].bits, FragmentCount(|m.data|)) then 1 else 0
  {
    var v := Eldest(ss, nows[0], |ss|).1;
    var gs := Got(ss, M, |m.data|, nows[0]).1;
    TakenOver(ss, m, M, nows[0]);
    DistinctKept(ss, M, |m.data|, nows[0]);
    assert Find(gs, M) == v && ps[0].m == m;
    hide Handle, Got, Eldest, Mixed, RestOf, Clear, StillNames, Deliveries;
    SameAfterGet(ss, gs, v, ps[0], nows[0]);
    SameFrom(ss, gs, v, M, ps, nows);
    assert !NoBits()[0];
    MixedDelivers(gs, v, m, M, ss[v].bits, NoBits(), ps, nows);
  }
}
