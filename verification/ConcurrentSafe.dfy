/** Every interleaving in which no lookup takes a slot from under another thread: each message is
    delivered once, with its bytes, when its last fragment has been counted. */
module ConcurrentSafe {
  import opened Words
  import opened Bytes
  import opened Fragments
  import opened Reassembly
  import opened RoundTrip
  import opened Concurrent

  /** About to deliver, or just done so. */
  predicate Finishing(at: map<Arrival, Thread>, a: Arrival) {
    a in at && (at[a].phase == Complete || at[a].phase == Delivered)
  }

  ghost predicate Called(at: map<Arrival, Thread>, M: nat) {
    exists n :: Arrival(M, n) in at && at[Arrival(M, n)].phase == Delivered
  }

  /** An open message in its slot: the bits are the marks, the counter lacks the subtractions, the
      buffer holds the copies, and at most one thread finishes, when all have subtracted. */
  ghost predicate Core(ms: Messages, st: State, M: nat, s: Slot)
    requires Placed(ms, st) && M in ms
  {
    var m, k := ms[M], FragmentCount(|ms[M].data|);
    && s.length == |m.data| && |s.buf| == BUFFER
    && s.bits == Past(st.at, M, 2)
    && s.need == Missing(|m.data|, Past(st.at, M, 4), k)
    && BytesOk(s.buf, m, Past(st.at, M, 3))
    && (forall n :: Finishing(st.at, Arrival(M, n)) ==> AllSet(Past(st.at, M, 4), k))
    && (forall n, l :: Finishing(st.at, Arrival(M, n)) && Finishing(st.at, Arrival(M, l)) ==> n == l)
    && Calls(st.out, M) == if Called(st.at, M) then [m] else []
  }

  /** The threads of M stand in slot i, or have left with success. */
  predicate Together(at: map<Arrival, Thread>, M: nat, i: nat) {
    forall a :: a in at && a.M == M ==> if at[a].phase.Left? then at[a].phase.status == Success else at[a].slot == i
  }

  /** A begun message: open in slot i, or closed. */
  ghost predicate MessageOk(ms: Messages, st: State, M: nat, i: nat)
    requires Placed(ms, st)
  {
    && M in ms && i < SLOTS && st.slots[i].M == M && Together(st.at, M, i)
    && if Closed(ms, st.at, M) then Free(st.slots[i]) && Calls(st.out, M) == [ms[M]] else Core(ms, st, M, st.slots[i])
  }

  /** A slot belongs to the open message it names, or it is free and nobody stands in it. */
  ghost predicate SlotFine(ms: Messages, st: State, i: nat)
    requires Placed(ms, st) && i < SLOTS
  {
    var M := st.slots[i].M;
    && (forall a :: Inside(st, a, i) ==> a.M == M)
    && if Opened(ms, st.at, M) then MessageOk(ms, st, M, i)
       else (M == NO_MESSAGE || Closed(ms, st.at, M)) && Free(st.slots[i]) && forall a :: !Inside(st, a, i)
  }

  ghost predicate Homed(st: State, M: nat) {
    exists i :: 0 <= i < |st.slots| && st.slots[i].M == M
  }

  /** Nothing is called before a message begins; a closed one has been called once. */
  ghost predicate CallsFine(ms: Messages, st: State, M: nat) {
    && (!Begun(st.at, M) ==> Calls(st.out, M) == [])
    && (Closed(ms, st.at, M) ==> Calls(st.out, M) == [ms[M]])
  }

  ghost predicate Sound(ms: Messages, st: State) {
    && Placed(ms, st) && DistinctSlots(st.slots)
    && (forall i :: 0 <= i < SLOTS ==> SlotFine(ms, st, i))
    && (forall M :: Opened(ms, st.at, M) ==> Homed(st, M))
    && (forall M :: CallsFine(ms, st, M))
    && (forall a :: a in st.at && st.at[a].phase.Left? ==> st.at[a].phase.status == Success)
  }

  lemma InitialInv(ms: Messages, ss: seq<Slot>)
    requires MessagesOk(ms) && Shaped(ss)
    ensures Sound(ms, Initial(ss))
  {
    var st := Initial(ss);
    forall M ensures CallsFine(ms, st, M) && !Opened(ms, st.at, M) {
      if M in ms {
        assert 0 < FragmentCount(|ms[M].data|) && Arrival(M, 0) !in st.at;
      }
    }
  }

  // ---- Frames ------------------------------------------------------------------------

  /** Only threads of M have moved. */
  predicate OnlyOf(at: map<Arrival, Thread>, at': map<Arrival, Thread>, M: nat) {
    && (forall a :: a in at && a.M != M ==> a in at' && at'[a] == at[a])
    && (forall a :: a in at' && a.M != M ==> a in at)
  }

  lemma OtherMessage(ms: Messages, at: map<Arrival, Thread>, at': map<Arrival, Thread>, M: nat, X: nat)
    requires OnlyOf(at, at', M) && X != M
    ensures (Closed(ms, at', X) <==> Closed(ms, at, X)) && (Begun(at', X) <==> Begun(at, X))
    ensures Opened(ms, at', X) <==> Opened(ms, at, X)
    ensures Called(at', X) <==> Called(at, X)
    ensures forall r {:trigger Past(at', X, r)} :: Past(at', X, r) == Past(at, X, r)
    ensures forall n :: Finishing(at', Arrival(X, n)) <==> Finishing(at, Arrival(X, n))
    ensures forall i :: Together(at, X, i) ==> Together(at', X, i)
  {
    assert forall n :: Arrival(X, n) in at' <==> Arrival(X, n) in at;
    assert forall n :: Arrival(X, n) in at ==> at'[Arrival(X, n)] == at[Arrival(X, n)];
    forall r ensures Past(at', X, r) == Past(at, X, r) {
      assert forall n :: 0 <= n < MAX_FRAGMENTS ==> Past(at', X, r)[n] == Past(at, X, r)[n];
    }
  }

  /** A slot of another message keeps its state. */
  lemma OtherSlot(ms: Messages, st: State, st': State, M: nat, j: nat)
    requires Placed(ms, st) && Placed(ms, st') && OnlyOf(st.at, st'.at, M) && j < SLOTS && SlotFine(ms, st, j)
    requires st'.slots[j] == st.slots[j] && st.slots[j].M != M
    requires Calls(st'.out, st.slots[j].M) == Calls(st.out, st.slots[j].M)
    requires forall a :: a in st'.at && a.M == M ==> !Inside(st', a, j)
    ensures SlotFine(ms, st', j)
  {
    var X := st.slots[j].M;
    OtherMessage(ms, st.at, st'.at, M, X);
    assert forall a :: Inside(st', a, j) ==> Inside(st, a, j);
    hide Past, Closed, Begun, Called, BytesOk, Missing, AllSet, Calls, Finishing, Together;
  }

  lemma OtherCalls(ms: Messages, st: State, st': State, M: nat, X: nat)
    requires OnlyOf(st.at, st'.at, M) && X != M && CallsFine(ms, st, X) && Calls(st'.out, X) == Calls(st.out, X)
    ensures CallsFine(ms, st', X)
  {
    OtherMessage(ms, st.at, st'.at, M, X);
    hide Closed, Begun, Calls;
  }

  /** One thread of M has moved, in the slot of M. */
  lemma Frame(ms: Messages, st: State, st': State, M: nat, i: nat)
    requires Sound(ms, st) && Placed(ms, st') && OnlyOf(st.at, st'.at, M) && i < SLOTS
    requires st'.slots == st.slots[i := st'.slots[i]] && Begun(st'.at, M)
    requires forall j :: 0 <= j < SLOTS && j != i ==> st.slots[j].M != M
    requires st.slots[i].M == M || !Opened(ms, st.at, st.slots[i].M)
    requires forall X :: X != M ==> Calls(st'.out, X) == Calls(st.out, X)
    requires forall a :: Inside(st', a, i) ==> a.M == M
    requires MessageOk(ms, st', M, i)
    ensures Sound(ms, st')
  {
    hide Core, Past, Calls, Called, BytesOk, Missing, Closed, Begun;
    forall j | 0 <= j < SLOTS ensures SlotFine(ms, st', j) {
      if j != i {
        assert SlotFine(ms, st, j);
        OtherSlot(ms, st, st', M, j);
      } else {
        ClosedEmpty(ms, st', M, i);
      }
    }
    forall X | Opened(ms, st'.at, X) ensures Homed(st', X) {
      OtherHome(ms, st, st', M, i, X);
    }
    forall X ensures CallsFine(ms, st', X) {
      if X != M {
        OtherCalls(ms, st, st', M, X);
      } else {
        OwnCalls(ms, st', M, i);
      }
    }
    assert forall a :: a in st'.at && a.M != M ==> a in st.at && st'.at[a] == st.at[a];
  }

  lemma OwnCalls(ms: Messages, st: State, M: nat, i: nat)
    requires Placed(ms, st) && MessageOk(ms, st, M, i) && Begun(st.at, M)
    ensures CallsFine(ms, st, M)
  {
    hide Core;
  }

  lemma ClosedEmpty(ms: Messages, st: State, M: nat, i: nat)
    requires Placed(ms, st) && MessageOk(ms, st, M, i) && Begun(st.at, M)
    requires forall a :: Inside(st, a, i) ==> a.M == M
    ensures SlotFine(ms, st, i)
  {
    hide Core;
    if Closed(ms, st.at, M) {
      forall a | a in st.at && a.M == M ensures st.at[a].phase.Left? {
        assert ArrivalOk(ms, a) && a == Arrival(M, a.N);
      }
    }
  }

  lemma OtherHome(ms: Messages, st: State, st': State, M: nat, i: nat, X: nat)
    requires Sound(ms, st) && Placed(ms, st') && OnlyOf(st.at, st'.at, M) && i < SLOTS && Opened(ms, st'.at, X)
    requires st'.slots == st.slots[i := st'.slots[i]] && st'.slots[i].M == M
    requires st.slots[i].M == M || !Opened(ms, st.at, st.slots[i].M)
    ensures Homed(st', X)
  {
    if X == M {
      assert st'.slots[i].M == X;
    } else {
      OtherMessage(ms, st.at, st'.at, M, X);
      hide SlotFine, CallsFine, Opened;
      var j :| 0 <= j < |st.slots| && st.slots[j].M == X;
      assert st'.slots[j].M == X;
    }
  }

  // ---- One thread's step -------------------------------------------------------------

  /** A thread moves to a phase: what changes of its message. */
  lemma PastMoved(at: map<Arrival, Thread>, a: Arrival, t: Thread, r: nat)
    requires a.N < MAX_FRAGMENTS
    ensures Past(at[a := t], a.M, r) == Past(at, a.M, r)[a.N := Rank(t.phase) >= r]
  {
    assert a == Arrival(a.M, a.N);
    var b, c := Past(at[a := t], a.M, r), Past(at, a.M, r)[a.N := Rank(t.phase) >= r];
    assert forall n :: 0 <= n < MAX_FRAGMENTS ==> b[n] == c[n];
  }

  /** The open message of a standing thread, and its slot. */
  lemma StandingOpen(ms: Messages, st: State, a: Arrival)
    requires Sound(ms, st) && a in st.at && !st.at[a].phase.Left?
    ensures var i := st.at[a].slot;
            && i < SLOTS && st.slots[i].M == a.M && Opened(ms, st.at, a.M) && ArrivalOk(ms, a)
            && MessageOk(ms, st, a.M, i) && Core(ms, st, a.M, st.slots[i])
            && (forall b :: Inside(st, b, i) ==> b.M == a.M)
            && (forall j :: 0 <= j < SLOTS && j != i ==> st.slots[j].M != a.M)
  {
    var i := st.at[a].slot;
    assert ArrivalOk(ms, a) && SlotFine(ms, st, i) && Inside(st, a, i);
    hide Core;
  }

  /** Thread a has moved in slot i, the slot of its message; nothing else has changed. */
  ghost predicate OneMoved(ms: Messages, st: State, st': State, a: Arrival, s: Slot, p: Phase) {
    && Sound(ms, st) && Placed(ms, st') && a in st.at && !st.at[a].phase.Left?
    && st'.at == st.at[a := Thread(st.at[a].slot, p)]
    && st.at[a].slot < SLOTS && st'.slots == st.slots[st.at[a].slot := s]
  }

  lemma MovedSuccess(ms: Messages, st: State, st': State, a: Arrival, s: Slot, p: Phase)
    requires OneMoved(ms, st, st', a, s, p) && s.M == a.M && (p.Left? ==> p.status == Success)
    requires forall X :: X != a.M ==> Calls(st'.out, X) == Calls(st.out, X)
    requires if Closed(ms, st'.at, a.M) then Free(s) && Calls(st'.out, a.M) == [ms[a.M]]
             else ArrivalOk(ms, a) && Core(ms, st', a.M, s)
    ensures Sound(ms, st')
  {
    StandingOpen(ms, st, a);
    var i := st.at[a].slot;
    hide Core, Past, Calls, Closed, SlotFine, CallsFine, ArrivalOk, Shaped;
    assert a in st'.at && a == Arrival(a.M, a.N);
    assert forall b :: Inside(st', b, i) ==> b == a || Inside(st, b, i);
    Frame(ms, st, st', a.M, i);
  }

  lemma NotAll(ms: Messages, at: map<Arrival, Thread>, M: nat, n: nat, r: nat)
    requires M in ms && Sendable(ms[M]) && n < FragmentCount(|ms[M].data|)
    requires r <= 6 && (Arrival(M, n) !in at || Rank(at[Arrival(M, n)].phase) < r)
    ensures !AllSet(Past(at, M, r), FragmentCount(|ms[M].data|)) && !Past(at, M, r)[n]
    ensures !Closed(ms, at, M)
  {
    assert !Past(at, M, r)[n];
    assert Arrival(M, n) in at ==> !at[Arrival(M, n)].phase.Left?;
  }

  /** The open message after one of its threads has moved to phase p. */
  lemma CoreMoved(ms: Messages, st: State, st': State, a: Arrival, s: Slot, p: Phase)
    requires OneMoved(ms, st, st', a, s, p) && ArrivalOk(ms, a)
    requires var M, m, k := a.M, ms[a.M], FragmentCount(|ms[a.M].data|);
             && s.length == |m.data| && |s.buf| == BUFFER
             && s.bits == Past(st.at, M, 2)[a.N := Rank(p) >= 2]
             && s.need == Missing(|m.data|, Past(st.at, M, 4)[a.N := Rank(p) >= 4], k)
             && BytesOk(s.buf, m, Past(st.at, M, 3)[a.N := Rank(p) >= 3])
             && (forall n :: Finishing(st.at, Arrival(M, n)) ==> n == a.N)
             && (p == Complete || p == Delivered ==> AllSet(Past(st.at, M, 4)[a.N := true], k))
             && Calls(st'.out, M) == if p == Delivered then [m] else []
    ensures Core(ms, st', a.M, s)
  {
    var M, at, at' := a.M, st.at, st'.at;
    assert a == Arrival(M, a.N);
    PastMoved(at, a, Thread(at[a].slot, p), 2);
    PastMoved(at, a, Thread(at[a].slot, p), 3);
    PastMoved(at, a, Thread(at[a].slot, p), 4);
    assert forall n ::
            n != a.N && Arrival(M, n) in at' ==> Arrival(M, n) in at && at'[Arrival(M, n)] == at[Arrival(M, n)];
    assert Called(at', M) <==> p == Delivered by {
      if p == Delivered { assert at'[Arrival(M, a.N)].phase == Delivered; }
      forall n | Arrival(M, n) in at' && at'[Arrival(M, n)].phase == Delivered ensures p == Delivered {
        assert n != a.N ==> Finishing(at, Arrival(M, n));
      }
    }
    forall n | Finishing(at', Arrival(M, n)) ensures n == a.N {
      assert n != a.N ==> Finishing(at, Arrival(M, n));
    }
    hide Past, BytesOk, Missing, AllSet, Calls;
  }

  /** Before a thread has subtracted, nobody finishes its message. */
  lemma NobodyFinishes(ms: Messages, st: State, a: Arrival)
    requires Sound(ms, st) && a in st.at && Rank(st.at[a].phase) < 4
    ensures ArrivalOk(ms, a) && Sendable(ms[a.M])
    ensures var k := FragmentCount(|ms[a.M].data|);
            && !AllSet(Past(st.at, a.M, 4), k) && !Past(st.at, a.M, 4)[a.N]
            && (forall n :: !Finishing(st.at, Arrival(a.M, n))) && Calls(st.out, a.M) == []
  {
    StandingOpen(ms, st, a);
    assert a == Arrival(a.M, a.N);
    NotAll(ms, st.at, a.M, a.N, 4);
    assert forall n :: !Finishing(st.at, Arrival(a.M, n));
    hide Past, Missing, BytesOk, Calls, AllSet, SlotFine, CallsFine;
  }

  lemma MarkStep(ms: Messages, st: State, a: Arrival)
    requires Sound(ms, st) && Enabled(ms, st, Mark(a))
    ensures Sound(ms, Step(ms, st, Mark(a)))
  {
    StandingOpen(ms, st, a);
    NobodyFinishes(ms, st, a);
    var at, M, st' := st.at, a.M, Step(ms, st, Mark(a));
    assert a == Arrival(M, a.N);
    var i, s0 := at[a].slot, st.slots[at[a].slot];
    assert !Past(at, M, 2)[a.N] && !Past(at, M, 3)[a.N] && !Past(at, M, 4)[a.N];
    assert Past(at, M, 3)[a.N := false] == Past(at, M, 3) && Past(at, M, 4)[a.N := false] == Past(at, M, 4);
    var s := s0.(bits := s0.bits[a.N := true]);
    NotLeft(ms, st'.at, a);
    hide Sound, Past, BytesOk, Missing, Calls, Called, Closed, AllSet, Finishing;
    assert OneMoved(ms, st, st', a, s, Marked);
    CoreMoved(ms, st, st', a, s, Marked);
    MovedSuccess(ms, st, st', a, s, Marked);
  }

  lemma NotLeft(ms: Messages, at: map<Arrival, Thread>, a: Arrival)
    requires ArrivalOk(ms, a) && a in at && !at[a].phase.Left?
    ensures !Closed(ms, at, a.M)
  {
    assert a == Arrival(a.M, a.N);
  }

  lemma CopyStep(ms: Messages, st: State, a: Arrival, now: nat)
    requires Sound(ms, st) && Enabled(ms, st, Copy(a, now))
    ensures Sound(ms, Step(ms, st, Copy(a, now)))
  {
    StandingOpen(ms, st, a);
    NobodyFinishes(ms, st, a);
    var at, M, m, st' := st.at, a.M, ms[a.M], Step(ms, st, Copy(a, now));
    assert a == Arrival(M, a.N);
    var i, s0 := at[a].slot, st.slots[at[a].slot];
    assert Past(at, M, 2)[a.N];
    assert Past(at, M, 2)[a.N := true] == Past(at, M, 2) && Past(at, M, 4)[a.N := false] == Past(at, M, 4);
    PatchBytes(s0.buf, m, Past(at, M, 3), M, a.N);
    var s := s0.(buf := Put(s0.buf, a.N * MAX_PACKET, Part(ms, a).buf), tick := now);
    NotLeft(ms, st'.at, a);
    hide Sound, Past, BytesOk, Missing, Calls, Called, Closed, AllSet, Finishing, Put;
    assert OneMoved(ms, st, st', a, s, Copied);
    CoreMoved(ms, st, st', a, s, Copied);
    MovedSuccess(ms, st, st', a, s, Copied);
  }

  lemma SubtractBits(ms: Messages, st: State, a: Arrival, i: nat, p: Phase)
    requires Sound(ms, st) && Enabled(ms, st, Subtract(a)) && ArrivalOk(ms, a)
    requires var m := ms[a.M];
             p == if AllSet(Past(st.at, a.M, 4)[a.N := true], FragmentCount(|m.data|)) then Complete else Left(Success)
    ensures Past(st.at, a.M, 2)[a.N := true] == Past(st.at, a.M, 2)
            && Past(st.at, a.M, 3)[a.N := true] == Past(st.at, a.M, 3)
    ensures !Closed(ms, st.at[a := Thread(i, p)], a.M)
  {
    var at, M := st.at, a.M;
    assert a == Arrival(M, a.N);
    assert Past(at, M, 2)[a.N] && Past(at, M, 3)[a.N];
    PastMoved(at, a, Thread(i, p), 4);
    hide Sound, Past;
    if p.Left? {
      StillOpen(ms, at[a := Thread(i, p)], M);
    } else {
      NotLeft(ms, at[a := Thread(i, p)], a);
    }
  }

  lemma SubtractStep(ms: Messages, st: State, a: Arrival)
    requires Sound(ms, st) && Enabled(ms, st, Subtract(a))
    ensures Sound(ms, Step(ms, st, Subtract(a)))
  {
    StandingOpen(ms, st, a);
    NobodyFinishes(ms, st, a);
    var at, M, m, st' := st.at, a.M, ms[a.M], Step(ms, st, Subtract(a));
    var i, s0, cb := at[a].slot, st.slots[at[a].slot], |Part(ms, a).buf|;
    hide Sound, Past, BytesOk, Missing, Calls, Called, Closed, AllSet, Finishing;
    CounterExact(m, Past(at, M, 4), a.N);
    var s := s0.(need := U32(s0.need - cb));
    var p := if s0.need == U32(cb) then Complete else Left(Success);
    SubtractBits(ms, st, a, i, p);
    assert OneMoved(ms, st, st', a, s, p);
    CoreMoved(ms, st, st', a, s, p);
    MovedSuccess(ms, st, st', a, s, p);
  }

  lemma StillOpen(ms: Messages, at: map<Arrival, Thread>, M: nat)
    requires M in ms && Sendable(ms[M]) && !AllSet(Past(at, M, 4), FragmentCount(|ms[M].data|))
    ensures !Closed(ms, at, M)
  {
    var n :| 0 <= n < FragmentCount(|ms[M].data|) && !Past(at, M, 4)[n];
    assert Arrival(M, n) in at ==> !at[Arrival(M, n)].phase.Left?;
  }

  /** The one thread that finishes a message. */
  lemma Finisher(ms: Messages, st: State, a: Arrival)
    requires Sound(ms, st) && Finishing(st.at, a)
    ensures ArrivalOk(ms, a) && Sendable(ms[a.M])
    ensures AllSet(Past(st.at, a.M, 4), FragmentCount(|ms[a.M].data|))
    ensures forall n :: Finishing(st.at, Arrival(a.M, n)) ==> n == a.N
    ensures Calls(st.out, a.M) == if st.at[a].phase == Delivered then [ms[a.M]] else []
    ensures forall n :: 0 <= n < FragmentCount(|ms[a.M].data|) ==>
              && Arrival(a.M, n) in st.at && (n != a.N ==> st.at[Arrival(a.M, n)].phase.Left?)
  {
    StandingOpen(ms, st, a);
    var M, at := a.M, st.at;
    assert a == Arrival(M, a.N);
    assert Finishing(at, Arrival(M, a.N));
    if at[a].phase == Delivered {
      assert at[Arrival(M, a.N)].phase == Delivered;
    } else {
      forall n | Arrival(M, n) in at ensures at[Arrival(M, n)].phase != Delivered {
        assert at[Arrival(M, n)].phase == Delivered ==> Finishing(at, Arrival(M, n));
      }
    }
    forall n | 0 <= n < FragmentCount(|ms[M].data|)
      ensures Arrival(M, n) in at && (n != a.N ==> at[Arrival(M, n)].phase.Left?)
    {
      assert Past(at, M, 4)[n];
      assert !Finishing(at, Arrival(M, n)) || n == a.N;
    }
    hide Sound, Missing, BytesOk, Calls;
  }

  lemma WholeBuffer(ms: Messages, st: State, a: Arrival)
    requires Sound(ms, st) && a in st.at && st.at[a].phase == Complete
    ensures ArrivalOk(ms, a) && st.at[a].slot < SLOTS && Shaped(st.slots) && |ms[a.M].data| <= BUFFER
    ensures st.slots[st.at[a].slot].buf[..|ms[a.M].data|] == ms[a.M].data
  {
    StandingOpen(ms, st, a);
    Finisher(ms, st, a);
    var M, k := a.M, FragmentCount(|ms[a.M].data|);
    assert AllSet(Past(st.at, M, 3), k) by {
      forall n | 0 <= n < k ensures Past(st.at, M, 3)[n] {
        assert Past(st.at, M, 4)[n];
      }
    }
    hide Sound, Past, Calls, Missing;
    RoundTrip.AllBytes(st.slots[st.at[a].slot].buf, ms[M], Past(st.at, M, 3));
  }

  lemma CallsNext(out: seq<Call>, c: Call, X: nat)
    ensures Calls(out + [c], X) == Calls(out, X) + if c.M == X then [c.m] else []
  {
    assert (out + [c])[..|out|] == out;
  }

  lemma DeliverStep(ms: Messages, st: State, a: Arrival)
    requires Sound(ms, st) && Enabled(ms, st, Deliver(a))
    ensures Sound(ms, Step(ms, st, Deliver(a)))
  {
    StandingOpen(ms, st, a);
    assert Finishing(st.at, a);
    Finisher(ms, st, a);
    WholeBuffer(ms, st, a);
    var at, M, m, st' := st.at, a.M, ms[a.M], Step(ms, st, Deliver(a));
    assert a == Arrival(M, a.N);
    var i, s0 := at[a].slot, st.slots[at[a].slot];
    var b2, b3, b4 := Past(at, M, 2), Past(at, M, 3), Past(at, M, 4);
    assert b2[a.N] && b3[a.N] && b4[a.N];
    assert b2[a.N := true] == b2 && b3[a.N := true] == b3 && b4[a.N := true] == b4;
    NotLeft(ms, st'.at, a);
    assert Message(m.kind, m.data) == m;
    forall X ensures Calls(st'.out, X) == Calls(st.out, X) + if X == M then [m] else [] {
      CallsNext(st.out, Call(M, m), X);
    }
    hide Sound, Past, BytesOk, Missing, Calls, Called, Closed, AllSet, Finishing;
    assert OneMoved(ms, st, st', a, s0, Delivered);
    CoreMoved(ms, st, st', a, s0, Delivered);
    MovedSuccess(ms, st, st', a, s0, Delivered);
  }

  lemma ClearStep(ms: Messages, st: State, a: Arrival)
    requires Sound(ms, st) && Enabled(ms, st, Clear(a))
    ensures Sound(ms, Step(ms, st, Clear(a)))
  {
    StandingOpen(ms, st, a);
    assert Finishing(st.at, a);
    Finisher(ms, st, a);
    var at, M, st' := st.at, a.M, Step(ms, st, Clear(a));
    assert a == Arrival(M, a.N);
    var s := st.slots[at[a].slot].(bits := NoBits());
    forall n | 0 <= n < FragmentCount(|ms[M].data|)
      ensures Arrival(M, n) in st'.at && st'.at[Arrival(M, n)].phase.Left?
    {
      assert n == a.N || st'.at[Arrival(M, n)] == at[Arrival(M, n)];
    }
    assert Closed(ms, st'.at, M);
    hide Sound, Past, Missing, Calls, Closed, Core, Finishing;
    assert OneMoved(ms, st, st', a, s, Left(Success));
    MovedSuccess(ms, st, st', a, s, Left(Success));
  }

  // ---- The lookup --------------------------------------------------------------------

  /** Four slots in use are four open messages. */
  lemma AllTaken(ms: Messages, st: State)
    requires Sound(ms, st) && forall i :: 0 <= i < SLOTS ==> !Free(st.slots[i])
    ensures |OpenSet(ms, st.at)| >= 4
  {
    hide Opened, MessageOk, CallsFine;
    forall i | 0 <= i < SLOTS ensures st.slots[i].M in OpenSet(ms, st.at) && st.slots[i].M != NO_MESSAGE {
      assert SlotFine(ms, st, i);
      OpenNumber(ms, st.at, st.slots[i].M);
    }
    var ss := st.slots;
    var four := {ss[0].M, ss[1].M, ss[2].M, ss[3].M};
    var open := OpenSet(ms, st.at);
    hide *;
    assert |four| == 4;
    Subset(four, open);
  }

  lemma OpenNumber(ms: Messages, at: map<Arrival, Thread>, M: nat)
    requires MessagesOk(ms) && Opened(ms, at, M)
    ensures M in ms && M != NO_MESSAGE
  {
  }

  lemma FreeHome(ms: Messages, st: State, M: nat)
    requires Sound(ms, st) && !Opened(ms, st.at, M) && |OpenSet(ms, st.at) + {M}| <= SLOTS
    ensures FirstFree(st.slots) < SLOTS
  {
    assert M !in OpenSet(ms, st.at);
    assert |OpenSet(ms, st.at) + {M}| == |OpenSet(ms, st.at)| + 1;
    hide OpenSet, SlotFine, CallsFine, Opened;
    if forall i :: 0 <= i < SLOTS ==> !Free(st.slots[i]) {
      AllTaken(ms, st);
    }
  }

  /** A free slot in which nobody stands belongs to no open message. */
  lemma FreeIsIdle(ms: Messages, st: State, i: nat)
    requires Sound(ms, st) && i < SLOTS && Free(st.slots[i]) && forall b :: !Inside(st, b, i)
    ensures !Opened(ms, st.at, st.slots[i].M)
  {
    var M := st.slots[i].M;
    assert SlotFine(ms, st, i);
    if Opened(ms, st.at, M) {
      StaysLooked(ms, st, M, i);
    }
  }

  lemma StaysLooked(ms: Messages, st: State, M: nat, i: nat)
    requires Placed(ms, st) && i < SLOTS && Free(st.slots[i]) && Opened(ms, st.at, M) && MessageOk(ms, st, M, i)
    ensures exists b :: Inside(st, b, i) && b.M == M
  {
    var n: nat :| Arrival(M, n) in st.at;
    var b := Arrival(M, n);
    assert ArrivalOk(ms, b);
    assert !Past(st.at, M, 2)[n] by { assert st.slots[i].bits == NoBits(); }
    assert Inside(st, b, i);
  }

  /** A message none of whose threads has subtracted, one more thread having looked it up. */
  lemma CoreGot(ms: Messages, st: State, st': State, a: Arrival, i: nat, s: Slot)
    requires Placed(ms, st) && Placed(ms, st') && ArrivalOk(ms, a) && a !in st.at && Core(ms, st, a.M, s)
    requires st'.at == st.at[a := Thread(i, Looked)] && st'.out == st.out
    ensures Core(ms, st', a.M, s)
  {
    var M, at, at' := a.M, st.at, st'.at;
    assert a == Arrival(M, a.N);
    PastMoved(at, a, Thread(i, Looked), 2);
    PastMoved(at, a, Thread(i, Looked), 3);
    PastMoved(at, a, Thread(i, Looked), 4);
    assert forall r: nat {:trigger Past(at, M, r)} :: !Past(at, M, r)[a.N];
    assert Past(at', M, 2) == Past(at, M, 2) && Past(at', M, 3) == Past(at, M, 3) && Past(at', M, 4) == Past(at, M, 4);
    assert forall n ::
            n != a.N && Arrival(M, n) in at' ==> Arrival(M, n) in at && at'[Arrival(M, n)] == at[Arrival(M, n)];
    NotAll(ms, at, M, a.N, 4);
    assert forall n :: !Finishing(at, Arrival(M, n));
    assert forall n :: !Finishing(at', Arrival(M, n));
    hide Past, Missing, BytesOk, AllSet, Calls;
  }

  /** A message not begun, in a free slot set up for it. */
  lemma CoreNew(ms: Messages, st: State, M: nat, s: Slot)
    requires Placed(ms, st) && M in ms && !Begun(st.at, M) && Free(s) && |s.buf| == BUFFER && Calls(st.out, M) == []
    requires s.length == |ms[M].data| && s.need == U32(|ms[M].data|)
    ensures Core(ms, st, M, s)
  {
    FreshSlotOk(s, ms[M]);
    assert forall n :: Arrival(M, n) !in st.at;
    assert Past(st.at, M, 2) == NoBits() && Past(st.at, M, 3) == NoBits() && Past(st.at, M, 4) == NoBits();
    assert !Called(st.at, M);
    hide Missing, BytesOk;
  }

  /** A new thread has looked up slot i, which is set up for its message. */
  lemma GotInv(ms: Messages, st: State, st': State, a: Arrival, i: nat)
    requires Sound(ms, st) && Placed(ms, st') && ArrivalOk(ms, a) && a !in st.at && i < SLOTS
    requires st'.at == st.at[a := Thread(i, Looked)] && st'.out == st.out
    requires st'.slots == st.slots[i := st'.slots[i]] && st'.slots[i].M == a.M
    requires st.slots[i].M == a.M || (!Opened(ms, st.at, st.slots[i].M) && forall b :: !Inside(st, b, i))
    requires forall j :: 0 <= j < SLOTS && j != i ==> st.slots[j].M != a.M
    requires Together(st.at, a.M, i) && Core(ms, st, a.M, st'.slots[i])
    ensures Sound(ms, st')
  {
    hide Core, Past, Calls, Closed, CallsFine;
    assert SlotFine(ms, st, i);
    GotTogether(st, st', a, i);
    CoreGot(ms, st, st', a, i, st'.slots[i]);
    NotLeft(ms, st'.at, a);
    hide SlotFine, ArrivalOk, Together, Opened;
    Frame(ms, st, st', a.M, i);
  }

  lemma GotTogether(st: State, st': State, a: Arrival, i: nat)
    requires st'.at == st.at[a := Thread(i, Looked)] && Together(st.at, a.M, i)
    ensures Together(st'.at, a.M, i) && OnlyOf(st.at, st'.at, a.M) && Begun(st'.at, a.M)
    ensures forall b :: Inside(st', b, i) ==> b == a || Inside(st, b, i)
  {
    assert a == Arrival(a.M, a.N) && a in st'.at;
  }

  lemma GetOpened(ms: Messages, st: State, a: Arrival, now: nat)
    requires Sound(ms, st) && Enabled(ms, st, Get(a, now)) && Opened(ms, st.at, a.M)
    ensures Sound(ms, Step(ms, st, Get(a, now)))
  {
    assert Homed(st, a.M);
    var i :| 0 <= i < SLOTS && st.slots[i].M == a.M;
    assert SlotFine(ms, st, i);
    NotAll(ms, st.at, a.M, a.N, 6);
    assert MessageOk(ms, st, a.M, i) && st.slots[i].length == |ms[a.M].data|;
    hide Core, Past, Calls, Closed, Opened, SlotFine, CallsFine, Together, Shaped, Inside;
    assert Find(st.slots, a.M) == i;
    assert st.slots[i := st.slots[i]] == st.slots;
    GotInv(ms, st, Step(ms, st, Get(a, now)), a, i);
  }

  lemma GetNewHome(ms: Messages, st: State, a: Arrival, now: nat)
    requires Sound(ms, st) && Enabled(ms, st, Get(a, now)) && !Opened(ms, st.at, a.M)
    requires HasRoom(ms, st, Get(a, now)) && !Steals(ms, st, Get(a, now))
    ensures Sound(ms, Step(ms, st, Get(a, now)))
  {
    var M, m := a.M, ms[a.M];
    assert a == Arrival(M, a.N);
    NotAll(ms, st.at, M, a.N, 6);
    assert !Begun(st.at, M) && CallsFine(ms, st, M);
    forall j | 0 <= j < SLOTS ensures st.slots[j].M != M {
      assert SlotFine(ms, st, j);
    }
    FreeHome(ms, st, M);
    var i := FirstFree(st.slots);
    assert Find(st.slots, M) == |st.slots|;
    assert Choose(st.slots, M, |m.data|, now) == (i, true);
    assert forall b :: !Inside(st, b, i);
    FreeIsIdle(ms, st, i);
    var s := st.slots[i].(length := |m.data|, need := U32(|m.data|), M := M);
    CoreNew(ms, st, M, s);
    assert Together(st.at, M, i);
    hide Core, Past, Calls, Closed, Opened, SlotFine, CallsFine, Together, OpenSet;
    GotInv(ms, st, Step(ms, st, Get(a, now)), a, i);
  }

  // ---- Whole runs --------------------------------------------------------------------

  lemma StepInv(ms: Messages, st: State, e: Event)
    requires Sound(ms, st) && Enabled(ms, st, e) && HasRoom(ms, st, e) && !Steals(ms, st, e)
    ensures Sound(ms, Step(ms, st, e))
  {
    hide Sound, Step, HasRoom, Steals, Opened;
    match e
    case Get(a, now) => if Opened(ms, st.at, a.M) { GetOpened(ms, st, a, now); } else { GetNewHome(ms, st, a, now); }
    case Mark(a) => MarkStep(ms, st, a);
    case Copy(a, now) => CopyStep(ms, st, a, now);
    case Subtract(a) => SubtractStep(ms, st, a);
    case Deliver(a) => DeliverStep(ms, st, a);
    case Clear(a) => ClearStep(ms, st, a);
  }

  /** The state before event i of a run. */
  function Before(ms: Messages, ss: seq<Slot>, es: seq<Event>, i: nat): (r: Option<State>)
    requires MessagesOk(ms) && Shaped(ss) && i <= |es|
    ensures r.Some? ==> Placed(ms, r.value)
  {
    Run(ms, Initial(ss), es[..i])
  }

  lemma {:induction false} PrefixRuns(ms: Messages, ss: seq<Slot>, es: seq<Event>, i: nat, n: nat)
    requires MessagesOk(ms) && Shaped(ss) && i <= n <= |es| && Before(ms, ss, es, n).Some?
    ensures Before(ms, ss, es, i).Some?
    decreases n - i
  {
    if i < n {
      assert es[..n][..n - 1] == es[..n - 1];
      hide Enabled, Step;
      PrefixRuns(ms, ss, es, i, n - 1);
    }
  }

  lemma NextState(ms: Messages, ss: seq<Slot>, es: seq<Event>, i: nat)
    requires MessagesOk(ms) && Shaped(ss) && i < |es| && Before(ms, ss, es, |es|).Some?
    ensures Before(ms, ss, es, i).Some? && Before(ms, ss, es, i + 1).Some?
    ensures var st := Before(ms, ss, es, i).value;
            Enabled(ms, st, es[i]) && Before(ms, ss, es, i + 1).value == Step(ms, st, es[i])
  {
    PrefixRuns(ms, ss, es, i + 1, |es|);
    assert es[..i + 1][..i] == es[..i];
    hide Enabled, Step;
  }

  ghost predicate StealAt(ms: Messages, ss: seq<Slot>, es: seq<Event>, i: nat)
    requires MessagesOk(ms) && Shaped(ss)
  {
    i < |es| && Before(ms, ss, es, i).Some? && Steals(ms, Before(ms, ss, es, i).value, es[i])
  }

  ghost predicate RoomAt(ms: Messages, ss: seq<Slot>, es: seq<Event>, i: nat)
    requires MessagesOk(ms) && Shaped(ss)
  {
    i < |es| && Before(ms, ss, es, i).Some? ==> HasRoom(ms, Before(ms, ss, es, i).value, es[i])
  }

  lemma {:induction false} SafePrefix(ms: Messages, ss: seq<Slot>, es: seq<Event>, n: nat)
    requires MessagesOk(ms) && Shaped(ss) && Before(ms, ss, es, |es|).Some? && n <= |es|
    requires forall i :: 0 <= i < n ==> RoomAt(ms, ss, es, i) && !StealAt(ms, ss, es, i)
    ensures Before(ms, ss, es, n).Some? && Sound(ms, Before(ms, ss, es, n).value)
  {
    if n == 0 {
      InitialInv(ms, ss);
      assert es[..0] == [];
    } else {
      hide Sound, Run, Enabled, Step, HasRoom, Steals;
      SafePrefix(ms, ss, es, n - 1);
      NextState(ms, ss, es, n - 1);
      assert RoomAt(ms, ss, es, n - 1) && !StealAt(ms, ss, es, n - 1);
      StepInv(ms, Before(ms, ss, es, n - 1).value, es[n - 1]);
    }
  }

  /** What the invariant says of the calls: a message is called at most once and with its bytes,
      not before all its fragments have been counted, and a closed one has been. Every thread
      that has returned has returned success. */
  ghost predicate Exact(ms: Messages, st: State, M: nat) {
    && M in ms && Sendable(ms[M])
    && (Calls(st.out, M) == [] || Calls(st.out, M) == [ms[M]])
    && (Calls(st.out, M) != [] ==> AllSet(Past(st.at, M, 4), FragmentCount(|ms[M].data|)))
    && (Closed(ms, st.at, M) ==> Calls(st.out, M) == [ms[M]])
    && (forall n :: Arrival(M, n) in st.at && st.at[Arrival(M, n)].phase.Left? ==>
                      st.at[Arrival(M, n)].phase.status == Success)
  }

  lemma InvExact(ms: Messages, st: State, M: nat)
    requires Sound(ms, st) && M in ms
    ensures Exact(ms, st, M)
  {
    assert CallsFine(ms, st, M);
    if Opened(ms, st.at, M) {
      assert Homed(st, M);
      var i :| 0 <= i < SLOTS && st.slots[i].M == M;
      assert SlotFine(ms, st, i);
      hide Past, Calls, Missing, BytesOk, Closed;
      if Called(st.at, M) {
        var n :| Arrival(M, n) in st.at && st.at[Arrival(M, n)].phase == Delivered;
        assert Finishing(st.at, Arrival(M, n));
      }
    } else if Closed(ms, st.at, M) {
      ClosedPast(ms, st.at, M);
    }
  }

  lemma ClosedPast(ms: Messages, at: map<Arrival, Thread>, M: nat)
    requires Closed(ms, at, M) && Sendable(ms[M])
    ensures AllSet(Past(at, M, 4), FragmentCount(|ms[M].data|))
  {
    forall n | 0 <= n < FragmentCount(|ms[M].data|) ensures Past(at, M, 4)[n] {
      assert Arrival(M, n) in at;
    }
  }

  /** Every interleaving of any number of threads, with room for the open messages and no stolen
      slot, delivers exactly. */
  lemma EveryInterleaving(ms: Messages, ss: seq<Slot>, es: seq<Event>, M: nat)
    requires MessagesOk(ms) && Shaped(ss) && Run(ms, Initial(ss), es).Some? && M in ms
    requires forall i :: 0 <= i < |es| ==> RoomAt(ms, ss, es, i) && !StealAt(ms, ss, es, i)
    ensures Exact(ms, Run(ms, Initial(ss), es).value, M)
  {
    assert es[..|es|] == es;
    hide Run, RoomAt, StealAt, Exact, Sound;
    SafePrefix(ms, ss, es, |es|);
    InvExact(ms, Before(ms, ss, es, |es|).value, M);
  }
}
