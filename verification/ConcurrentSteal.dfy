/** The converse: once a lookup has taken a slot from under a thread, and no further one does, the
    message robbed and the message that robs it are not both delivered. */
module ConcurrentSteal {
  import opened Words
  import opened Bytes
  import opened Fragments
  import opened Reassembly
  import opened RoundTrip
  import opened Concurrent
  import opened ConcurrentSafe
  import Duplicates

  /** Bytes of M not yet subtracted from any counter. */
  function Pending(ms: Messages, at: map<Arrival, Thread>, M: nat): nat
    requires MessagesOk(ms) && M in ms
  {
    Missing(|ms[M].data|, Past(at, M, 4), FragmentCount(|ms[M].data|))
  }

  /** Those, the bytes of thread w counted in any case. */
  function Floor(ms: Messages, at: map<Arrival, Thread>, w: Arrival): nat
    requires MessagesOk(ms) && w.M in ms && w.N < MAX_FRAGMENTS
  {
    Missing(|ms[w.M].data|, Past(at, w.M, 4)[w.N := false], FragmentCount(|ms[w.M].data|))
  }

  /** The counter as the LONG it is. */
  function Signed(need: nat): int {
    if need < 0x8000_0000 then need else need - ULONG_RANGE
  }

  /** Called, or about to be. */
  ghost predicate Won(st: State, M: nat) {
    Calls(st.out, M) != [] || exists n :: Arrival(M, n) in st.at && st.at[Arrival(M, n)].phase == Complete
  }

  /** The robbed thread w1 and the robbing thread w2 met in slot i; `shared` while the slot has not
      been given away again. */
  datatype Theft = Theft(i: nat, w1: Arrival, w2: Arrival, shared: bool)

  predicate Shares(t: Theft, j: nat) {
    t.shared && j == t.i
  }

  predicate Involved(t: Theft, M: nat) {
    M == t.w1.M || M == t.w2.M
  }

  function Witness(t: Theft, M: nat): Arrival {
    if M == t.w1.M then t.w1 else t.w2
  }

  predicate TheftOk(ms: Messages, st: State, t: Theft) {
    && Placed(ms, st) && t.i < SLOTS && t.w1 in st.at && t.w2 in st.at && t.w1.M != t.w2.M
    && ArrivalOk(ms, t.w1) && ArrivalOk(ms, t.w2)
  }

  /** A slot that is not shared holds threads of the message it names only, not the two that met;
      and its counter, if it names one of their messages, still waits for theirs. */
  ghost predicate Pure(ms: Messages, st: State, t: Theft, j: nat)
    requires TheftOk(ms, st, t) && j < SLOTS
  {
    var M := st.slots[j].M;
    && (forall a :: Inside(st, a, j) ==> a.M == M && a != t.w1 && a != t.w2)
    && (Involved(t, M) ==> Floor(ms, st.at, Witness(t, M)) <= st.slots[j].need <= BUFFER)
  }

  /** The shared slot names the robber; its counter has gone down by what was subtracted. */
  ghost predicate Mixed(ms: Messages, st: State, t: Theft)
    requires TheftOk(ms, st, t)
  {
    var s, z := st.slots[t.i], Signed(st.slots[t.i].need);
    var l1, l2 := |ms[t.w1.M].data|, |ms[t.w2.M].data|;
    && s.M == t.w2.M && (forall a :: Inside(st, a, t.i) ==> Involved(t, a.M)) && s.need < ULONG_RANGE
    && Pending(ms, st.at, t.w1.M) + Pending(ms, st.at, t.w2.M) - l1 - l2 <= z <= l2
    && (Won(st, t.w1.M) || Won(st, t.w2.M) ==> z <= 0)
  }

  ghost predicate Robbed(ms: Messages, st: State, t: Theft) {
    && TheftOk(ms, st, t) && DistinctSlots(st.slots)
    && (forall j :: 0 <= j < SLOTS && !Shares(t, j) ==> Pure(ms, st, t, j))
    && (t.shared ==> Mixed(ms, st, t))
    && !(Won(st, t.w1.M) && Won(st, t.w2.M))
  }

  // ---- Arithmetic of the counters ----------------------------------------------------

  /** A thread moves: its bytes are no longer pending once it has passed the counter. */
  lemma PendingMoved(ms: Messages, at: map<Arrival, Thread>, a: Arrival, t: Thread, M: nat)
    requires MessagesOk(ms) && ArrivalOk(ms, a) && M in ms
    ensures var len := FragmentLength(|ms[a.M].data|, a.N);
            var counts := Rank(t.phase) >= 4 && !(a in at && Rank(at[a].phase) >= 4);
            && (a in at && Rank(at[a].phase) >= 4 ==> Rank(t.phase) >= 4) ==>
                 Pending(ms, at[a := t], M) == Pending(ms, at, M) - if M == a.M && counts then len else 0
  {
    var len, L, k := FragmentLength(|ms[a.M].data|, a.N), |ms[M].data|, FragmentCount(|ms[M].data|);
    assert a == Arrival(a.M, a.N);
    var b := Past(at, M, 4);
    if M == a.M {
      PastMoved(at, a, t, 4);
      assert b[a.N] == (a in at && Rank(at[a].phase) >= 4);
      if b[a.N] {
        assert b[a.N := true] == b;
      } else {
        assert b[a.N := false] == b;
        MissingSet(L, b, a.N, k);
      }
    } else {
      OtherMessage(ms, at, at[a := t], a.M, M);
    }
    hide Past, Missing;
  }

  lemma FloorMoved(ms: Messages, at: map<Arrival, Thread>, a: Arrival, t: Thread, w: Arrival)
    requires MessagesOk(ms) && ArrivalOk(ms, a) && ArrivalOk(ms, w)
    ensures var len := FragmentLength(|ms[a.M].data|, a.N);
            var counts := Rank(t.phase) >= 4 && !(a in at && Rank(at[a].phase) >= 4);
            && (a in at && Rank(at[a].phase) >= 4 ==> Rank(t.phase) >= 4) ==>
                 Floor(ms, at[a := t], w) == Floor(ms, at, w) - if w.M == a.M && w != a && counts then len else 0
  {
    var len, L, k := FragmentLength(|ms[a.M].data|, a.N), |ms[w.M].data|, FragmentCount(|ms[w.M].data|);
    assert a == Arrival(a.M, a.N) && w == Arrival(w.M, w.N);
    var b := Past(at, w.M, 4);
    if w.M == a.M {
      PastMoved(at, a, t, 4);
      assert b[a.N] == (a in at && Rank(at[a].phase) >= 4);
      if w == a {
        assert b[a.N := Rank(t.phase) >= 4][w.N := false] == b[w.N := false];
      } else if b[a.N] {
        assert b[a.N := true] == b;
      } else {
        assert b[a.N := false] == b;
        var c := b[w.N := false];
        assert b[a.N := true][w.N := false] == c[a.N := true];
        MissingSet(L, c, a.N, k);
      }
    } else {
      OtherMessage(ms, at, at[a := t], a.M, w.M);
    }
    hide Past, Missing;
  }

  /** While a thread other than the witness has not subtracted, more than its bytes are waited for. */
  lemma FloorAbove(ms: Messages, at: map<Arrival, Thread>, a: Arrival, w: Arrival)
    requires MessagesOk(ms) && ArrivalOk(ms, a) && ArrivalOk(ms, w) && a.M == w.M && a != w
    requires a in at && Rank(at[a].phase) < 4
    ensures FragmentLength(|ms[a.M].data|, a.N) < Floor(ms, at, w)
  {
    var L, k := |ms[w.M].data|, FragmentCount(|ms[w.M].data|);
    assert a == Arrival(a.M, a.N);
    var c := Past(at, w.M, 4)[w.N := false];
    assert !c[a.N] && !c[w.N];
    var d := c[a.N := true];
    MissingSet(L, c, a.N, k);
    MissingSet(L, d, w.N, k);
    hide Missing, Past;
  }

  lemma FloorBound(ms: Messages, at: map<Arrival, Thread>, w: Arrival)
    requires MessagesOk(ms) && ArrivalOk(ms, w)
    ensures Floor(ms, at, w) <= |ms[w.M].data| <= BUFFER
  {
    Duplicates.MissingBound(|ms[w.M].data|, Past(at, w.M, 4)[w.N := false], FragmentCount(|ms[w.M].data|));
    hide Missing, Past;
  }

  lemma PendingBound(ms: Messages, at: map<Arrival, Thread>, a: Arrival)
    requires MessagesOk(ms) && ArrivalOk(ms, a) && a in at && Rank(at[a].phase) < 4
    ensures FragmentLength(|ms[a.M].data|, a.N) <= Pending(ms, at, a.M)
  {
    var L, k := |ms[a.M].data|, FragmentCount(|ms[a.M].data|);
    assert a == Arrival(a.M, a.N);
    MissingSet(L, Past(at, a.M, 4), a.N, k);
  }

  lemma SignedMinus(need: nat, len: nat)
    requires need < ULONG_RANGE && 0 < len <= MAX_PACKET && Signed(need) - len >= -0x4000_0000 && Signed(need) <= BUFFER
    ensures Signed(U32(need - len)) == Signed(need) - len && U32(need - len) < ULONG_RANGE
    ensures need == U32(len) <==> Signed(need) == len
  {
  }

  // ---- Steps after the theft ---------------------------------------------------------

  /** Thread a has moved to th. */
  ghost predicate Moves(ms: Messages, st: State, st': State, a: Arrival, th: Thread) {
    && Placed(ms, st) && Placed(ms, st') && ArrivalOk(ms, a) && st'.at == st.at[a := th]
    && (a in st.at && Rank(st.at[a].phase) >= 4 ==> Rank(th.phase) >= 4)
  }

  /** It stands where it stood, or in a slot that names its message, or nowhere. */
  ghost predicate Enters(st: State, st': State, a: Arrival, j: nat)
    requires j < |st.slots|
  {
    Inside(st', a, j) ==> Inside(st, a, j) || (a !in st.at && st.slots[j].M == a.M)
  }

  lemma PureMoves(ms: Messages, st: State, st': State, t: Theft, j: nat, a: Arrival, th: Thread)
    requires TheftOk(ms, st, t) && Moves(ms, st, st', a, th) && j < SLOTS && Pure(ms, st, t, j) && Enters(st, st', a, j)
    requires st'.slots[j].M == st.slots[j].M && st'.slots[j].need == st.slots[j].need
    ensures TheftOk(ms, st', t) && Pure(ms, st', t, j)
  {
    var M := st.slots[j].M;
    if Involved(t, M) {
      FloorMoved(ms, st.at, a, th, Witness(t, M));
    }
    assert forall b :: Inside(st', b, j) ==> b == a || Inside(st, b, j);
    hide Floor;
  }

  lemma MixedMoves(ms: Messages, st: State, st': State, t: Theft, a: Arrival, th: Thread)
    requires TheftOk(ms, st, t) && Moves(ms, st, st', a, th) && Mixed(ms, st, t) && Enters(st, st', a, t.i)
    requires st'.slots[t.i].M == st.slots[t.i].M && st'.slots[t.i].need == st.slots[t.i].need
    requires forall M :: Won(st', M) <==> Won(st, M)
    ensures TheftOk(ms, st', t) && Mixed(ms, st', t)
  {
    PendingMoved(ms, st.at, a, th, t.w1.M);
    PendingMoved(ms, st.at, a, th, t.w2.M);
    assert forall b :: Inside(st', b, t.i) ==> b == a || Inside(st, b, t.i);
    hide Pending, Won;
  }

  /** A step that changes no name and no counter. */
  lemma QuietStep(ms: Messages, st: State, st': State, t: Theft, a: Arrival, th: Thread)
    requires Robbed(ms, st, t) && Moves(ms, st, st', a, th)
    requires forall j :: 0 <= j < SLOTS ==>
               st'.slots[j].M == st.slots[j].M && st'.slots[j].need == st.slots[j].need && Enters(st, st', a, j)
    requires forall M :: Won(st', M) <==> Won(st, M)
    ensures Robbed(ms, st', t)
  {
    hide Pure, Mixed, Won, Enters, Moves;
    forall j | 0 <= j < SLOTS && !Shares(t, j) ensures TheftOk(ms, st', t) && Pure(ms, st', t, j) {
      PureMoves(ms, st, st', t, j, a, th);
    }
    if t.shared {
      MixedMoves(ms, st, st', t, a, th);
    }
    StillMet(ms, st, st', t, a, th);
  }

  lemma StillMet(ms: Messages, st: State, st': State, t: Theft, a: Arrival, th: Thread)
    requires TheftOk(ms, st, t) && Moves(ms, st, st', a, th)
    ensures TheftOk(ms, st', t)
  {
  }

  lemma WonSame(st: State, st': State, a: Arrival, th: Thread, M: nat)
    requires st'.at == st.at[a := th] && st'.out == st.out && th.phase != Complete
    requires a in st.at ==> st.at[a].phase != Complete
    ensures Won(st', M) <==> Won(st, M)
  {
    hide Calls;
    forall n | Arrival(M, n) in st.at && st.at[Arrival(M, n)].phase == Complete ensures Won(st', M) {
      assert st'.at[Arrival(M, n)].phase == Complete;
    }
    forall n | Arrival(M, n) in st'.at && st'.at[Arrival(M, n)].phase == Complete ensures Won(st, M) {
      assert st.at[Arrival(M, n)].phase == Complete;
    }
  }

  lemma RobbedMark(ms: Messages, st: State, t: Theft, a: Arrival)
    requires Robbed(ms, st, t) && Enabled(ms, st, Mark(a))
    ensures Robbed(ms, Step(ms, st, Mark(a)), t)
  {
    var st' := Step(ms, st, Mark(a));
    hide Robbed, Won, Past;
    forall M ensures Won(st', M) <==> Won(st, M) {
      WonSame(st, st', a, st'.at[a], M);
    }
    QuietStep(ms, st, st', t, a, st'.at[a]);
  }

  lemma RobbedCopy(ms: Messages, st: State, t: Theft, a: Arrival, now: nat)
    requires Robbed(ms, st, t) && Enabled(ms, st, Copy(a, now))
    ensures Robbed(ms, Step(ms, st, Copy(a, now)), t)
  {
    var st' := Step(ms, st, Copy(a, now));
    hide Robbed, Won, Past, Put;
    forall M ensures Won(st', M) <==> Won(st, M) {
      WonSame(st, st', a, st'.at[a], M);
    }
    QuietStep(ms, st, st', t, a, st'.at[a]);
  }

  lemma RobbedClear(ms: Messages, st: State, t: Theft, a: Arrival)
    requires Robbed(ms, st, t) && Enabled(ms, st, Clear(a))
    ensures Robbed(ms, Step(ms, st, Clear(a)), t)
  {
    var st' := Step(ms, st, Clear(a));
    hide Robbed, Won, Past;
    forall M ensures Won(st', M) <==> Won(st, M) {
      WonSame(st, st', a, st'.at[a], M);
    }
    QuietStep(ms, st, st', t, a, st'.at[a]);
  }

  lemma RobbedDeliver(ms: Messages, st: State, t: Theft, a: Arrival)
    requires Robbed(ms, st, t) && Enabled(ms, st, Deliver(a))
    ensures Robbed(ms, Step(ms, st, Deliver(a)), t)
  {
    var st' := Step(ms, st, Deliver(a));
    assert a == Arrival(a.M, a.N);
    forall M ensures Won(st', M) <==> Won(st, M) {
      CallsNext(st.out, st'.out[|st.out|], M);
      forall n | Arrival(M, n) in st.at && st.at[Arrival(M, n)].phase == Complete && M != a.M ensures Won(st', M) {
        assert st'.at[Arrival(M, n)].phase == Complete;
      }
    }
    hide Robbed, Won, Past;
    QuietStep(ms, st, st', t, a, st'.at[a]);
  }

  /** A lookup that assigns nothing. */
  lemma RobbedFind(ms: Messages, st: State, t: Theft, a: Arrival, now: nat)
    requires Robbed(ms, st, t) && Enabled(ms, st, Get(a, now)) && !Assigns(ms, st, Get(a, now))
    ensures Robbed(ms, Step(ms, st, Get(a, now)), t)
  {
    var st' := Step(ms, st, Get(a, now));
    var v := Choose(st.slots, a.M, |ms[a.M].data|, now).0;
    assert v < SLOTS ==> st.slots[v].M == a.M;
    hide Robbed, Won, Past, Choose;
    assert st'.slots == st.slots;
    forall M ensures Won(st', M) <==> Won(st, M) {
      WonSame(st, st', a, st'.at[a], M);
    }
    QuietStep(ms, st, st', t, a, st'.at[a]);
  }

  /** The slot given away is pure: only the new thread stands in it. */
  lemma GivenPure(ms: Messages, st: State, st': State, t: Theft, a: Arrival, v: nat)
    requires TheftOk(ms, st, t) && Placed(ms, st') && v < SLOTS && ArrivalOk(ms, a) && a !in st.at
    requires forall b :: !Inside(st, b, v)
    requires st'.at == st.at[a := Thread(v, Looked)] && st'.slots[v].M == a.M
             && st'.slots[v].need == U32(|ms[a.M].data|)
    ensures TheftOk(ms, st', t) && Pure(ms, st', t, v)
  {
    if Involved(t, a.M) {
      FloorBound(ms, st'.at, Witness(t, a.M));
    }
    forall b | Inside(st', b, v) ensures b == a {
      assert !Inside(st, b, v);
    }
    hide Floor;
  }

  /** A lookup that gives away a slot nobody stands in. */
  lemma RobbedAssign(ms: Messages, st: State, t: Theft, a: Arrival, now: nat)
    requires Robbed(ms, st, t) && Enabled(ms, st, Get(a, now))
    requires Assigns(ms, st, Get(a, now)) && !Steals(ms, st, Get(a, now))
    ensures var v := Choose(st.slots, a.M, |ms[a.M].data|, now).0;
            Robbed(ms, Step(ms, st, Get(a, now)), t.(shared := t.shared && v != t.i))
  {
    var st', th := Step(ms, st, Get(a, now)), Thread(Choose(st.slots, a.M, |ms[a.M].data|, now).0, Looked);
    var v := th.slot;
    var t' := t.(shared := t.shared && v != t.i);
    assert forall b :: !Inside(st, b, v);
    Duplicates.DistinctKept(st.slots, a.M, |ms[a.M].data|, now);
    assert v < SLOTS && st'.slots == st.slots[v := st'.slots[v]];
    assert st'.slots[v].M == a.M && st'.slots[v].need == U32(|ms[a.M].data|) && st'.at == st.at[a := th];
    assert Moves(ms, st, st', a, th) && st'.out == st.out;
    hide Step, Choose, Pure, Mixed, Won, Moves, DistinctSlots;
    forall M ensures Won(st', M) <==> Won(st, M) {
      WonSame(st, st', a, th, M);
    }
    GivenPure(ms, st, st', t, a, v);
    forall j | 0 <= j < SLOTS && !Shares(t', j) ensures TheftOk(ms, st', t') && Pure(ms, st', t', j) {
      if j != v {
        PureMoves(ms, st, st', t, j, a, th);
        SamePure(ms, st', t, t', j);
      } else {
        SamePure(ms, st', t, t', j);
      }
    }
    if t'.shared {
      MixedMoves(ms, st, st', t, a, th);
    }
  }

  lemma SamePure(ms: Messages, st: State, t: Theft, t': Theft, j: nat)
    requires TheftOk(ms, st, t) && j < SLOTS && Pure(ms, st, t, j) && t' == t.(shared := t'.shared)
    ensures TheftOk(ms, st, t') && Pure(ms, st, t', j)
  {
    hide Floor;
  }

  /** Counting down in a pure slot: of an involved message no thread finds the counter at its own
      length. */
  lemma CountPure(ms: Messages, st: State, t: Theft, a: Arrival)
    requires TheftOk(ms, st, t) && a in st.at && st.at[a].phase == Copied && Pure(ms, st, t, st.at[a].slot)
    requires Involved(t, a.M)
    ensures var v, len := st.at[a].slot, FragmentLength(|ms[a.M].data|, a.N);
            && st.slots[v].M == a.M && st.slots[v].need != U32(len) && a != Witness(t, a.M)
            && U32(st.slots[v].need - len) == st.slots[v].need - len
            && Floor(ms, st.at, Witness(t, a.M)) - len <= st.slots[v].need - len <= BUFFER
  {
    assert Inside(st, a, st.at[a].slot);
    FloorAbove(ms, st.at, a, Witness(t, a.M));
    hide Floor;
  }

  lemma SubtractedPure(ms: Messages, st: State, st': State, t: Theft, a: Arrival, th: Thread, j: nat)
    requires TheftOk(ms, st, t) && Moves(ms, st, st', a, th) && j < SLOTS && Pure(ms, st, t, j)
    requires a in st.at && st.at[a].phase == Copied && th.slot == st.at[a].slot && Rank(th.phase) >= 4
    requires st'.slots[j].M == st.slots[j].M
    requires st'.slots[j].need ==
             if j == th.slot then U32(st.slots[j].need - FragmentLength(|ms[a.M].data|, a.N)) else st.slots[j].need
    ensures TheftOk(ms, st', t) && Pure(ms, st', t, j)
  {
    var M := st.slots[j].M;
    assert forall b :: Inside(st', b, j) ==> Inside(st, b, j);
    if Involved(t, M) {
      FloorMoved(ms, st.at, a, th, Witness(t, M));
      if j == th.slot {
        assert Inside(st, a, j);
        CountPure(ms, st, t, a);
      }
    }
    hide Floor;
  }

  lemma WonSubtract(st: State, st': State, a: Arrival, th: Thread, M: nat)
    requires st'.at == st.at[a := th] && st'.out == st.out && a in st.at && st.at[a].phase == Copied
    ensures Won(st, M) ==> Won(st', M)
    ensures Won(st', M) ==> Won(st, M) || (M == a.M && th.phase == Complete)
  {
    hide Calls;
    forall n | Arrival(M, n) in st.at && st.at[Arrival(M, n)].phase == Complete ensures Won(st', M) {
      assert st'.at[Arrival(M, n)].phase == Complete;
    }
    forall n | Arrival(M, n) in st'.at && st'.at[Arrival(M, n)].phase == Complete && !(M == a.M && th.phase == Complete)
      ensures Won(st, M)
    {
      assert st.at[Arrival(M, n)].phase == Complete;
    }
  }

  lemma PendingDown(ms: Messages, st: State, st': State, t: Theft, a: Arrival, th: Thread)
    requires TheftOk(ms, st, t) && Moves(ms, st, st', a, th) && Involved(t, a.M)
    requires a in st.at && st.at[a].phase == Copied && Rank(th.phase) >= 4
    ensures TheftOk(ms, st', t)
    ensures var len := FragmentLength(|ms[a.M].data|, a.N);
            && 0 < len <= MAX_PACKET && len <= Pending(ms, st.at, t.w1.M) + Pending(ms, st.at, t.w2.M)
            && |ms[t.w1.M].data| <= BUFFER && |ms[t.w2.M].data| <= BUFFER
            && Pending(ms, st'.at, t.w1.M) + Pending(ms, st'.at, t.w2.M) ==
               Pending(ms, st.at, t.w1.M) + Pending(ms, st.at, t.w2.M) - len
  {
    hide Pending, Past;
    PendingMoved(ms, st.at, a, th, t.w1.M);
    PendingMoved(ms, st.at, a, th, t.w2.M);
    PendingBound(ms, st.at, a);
  }

  /** Of the two messages at most one wins by bringing the shared counter from z to zero. */
  lemma SharedWins(st: State, st': State, t: Theft, a: Arrival, th: Thread, z: int, z': int)
    requires st'.at == st.at[a := th] && st'.out == st.out && a in st.at && st.at[a].phase == Copied
    requires !(Won(st, t.w1.M) && Won(st, t.w2.M)) && (Won(st, t.w1.M) || Won(st, t.w2.M) ==> z <= 0)
    requires z' < z && (th.phase == Complete ==> z' == 0) && t.w1.M != t.w2.M
    ensures !(Won(st', t.w1.M) && Won(st', t.w2.M)) && (Won(st', t.w1.M) || Won(st', t.w2.M) ==> z' <= 0)
  {
    hide Won;
    WonSubtract(st, st', a, th, t.w1.M);
    WonSubtract(st, st', a, th, t.w2.M);
  }

  /** Counting down in the shared slot: only once the counter is found at the thread's length, and
      then it is zero and only goes further down. */
  lemma SubtractedMixed(ms: Messages, st: State, st': State, t: Theft, a: Arrival, th: Thread)
    requires TheftOk(ms, st, t) && Moves(ms, st, st', a, th) && Mixed(ms, st, t) && st'.out == st.out
    requires a in st.at && st.at[a].phase == Copied && th.slot == st.at[a].slot == t.i
    requires st'.slots[t.i].M == st.slots[t.i].M
    requires var len := FragmentLength(|ms[a.M].data|, a.N);
             && st'.slots[t.i].need == U32(st.slots[t.i].need - len)
             && th.phase == if st.slots[t.i].need == U32(len) then Complete else Left(Success)
    requires !(Won(st, t.w1.M) && Won(st, t.w2.M))
    ensures TheftOk(ms, st', t) && Mixed(ms, st', t) && !(Won(st', t.w1.M) && Won(st', t.w2.M))
  {
    var len := FragmentLength(|ms[a.M].data|, a.N);
    assert Inside(st, a, t.i);
    assert forall b :: Inside(st', b, t.i) ==> Inside(st, b, t.i);
    hide Pending, Won, Signed, Past, Moves;
    PendingDown(ms, st, st', t, a, th);
    hide Placed;
    assert len > 0 && Signed(st.slots[t.i].need) - len >= -2 * BUFFER;
    SignedMinus(st.slots[t.i].need, len);
    SharedWins(st, st', t, a, th, Signed(st.slots[t.i].need), Signed(st'.slots[t.i].need));
  }

  /** Counting down elsewhere leaves the shared slot alone. */
  lemma SubtractedElsewhere(ms: Messages, st: State, st': State, t: Theft, a: Arrival, th: Thread)
    requires TheftOk(ms, st, t) && Moves(ms, st, st', a, th) && Mixed(ms, st, t) && st'.out == st.out
    requires a in st.at && st.at[a].phase == Copied && th.slot == st.at[a].slot != t.i
    requires Involved(t, a.M) ==> th.phase == Left(Success)
    requires st'.slots[t.i] == st.slots[t.i]
    ensures TheftOk(ms, st', t) && Mixed(ms, st', t)
  {
    assert forall b :: Inside(st', b, t.i) ==> Inside(st, b, t.i);
    PendingMoved(ms, st.at, a, th, t.w1.M);
    PendingMoved(ms, st.at, a, th, t.w2.M);
    hide Pending, Won, Signed;
    WonSubtract(st, st', a, th, t.w1.M);
    WonSubtract(st, st', a, th, t.w2.M);
  }

  lemma SubtractIs(ms: Messages, st: State, a: Arrival)
    requires Placed(ms, st) && Enabled(ms, st, Subtract(a))
    ensures var st', len := Step(ms, st, Subtract(a)), FragmentLength(|ms[a.M].data|, a.N);
            && a in st'.at && Moves(ms, st, st', a, st'.at[a]) && st'.out == st.out
            && var v := st'.at[a].slot;
               && v == st.at[a].slot < SLOTS
               && (forall j :: 0 <= j < SLOTS ==>
                     && st'.slots[j].M == st.slots[j].M && (j != v ==> st'.slots[j] == st.slots[j])
                     && st'.slots[j].need == if j == v then U32(st.slots[j].need - len) else st.slots[j].need)
               && st'.at[a].phase == if st.slots[v].need == U32(len) then Complete else Left(Success)
  {
    assert |Part(ms, a).buf| == FragmentLength(|ms[a.M].data|, a.N);
    hide Part, U32;
  }

  lemma RobbedSubtract(ms: Messages, st: State, t: Theft, a: Arrival)
    requires Robbed(ms, st, t) && Enabled(ms, st, Subtract(a))
    ensures Robbed(ms, Step(ms, st, Subtract(a)), t)
  {
    var st' := Step(ms, st, Subtract(a));
    var th := st'.at[a];
    var v := th.slot;
    SubtractIs(ms, st, a);
    hide Step, Pure, Mixed, Won, Moves, Calls;
    forall j | 0 <= j < SLOTS && !Shares(t, j) ensures TheftOk(ms, st', t) && Pure(ms, st', t, j) {
      SubtractedPure(ms, st, st', t, a, th, j);
    }
    if Shares(t, v) {
      SubtractedMixed(ms, st, st', t, a, th);
    } else {
      if Involved(t, a.M) {
        CountPure(ms, st, t, a);
      }
      if t.shared {
        SubtractedElsewhere(ms, st, st', t, a, th);
      }
      WonSubtract(st, st', a, th, t.w1.M);
      WonSubtract(st, st', a, th, t.w2.M);
    }
    StillMet(ms, st, st', t, a, th);
  }

  lemma RobbedStep(ms: Messages, st: State, t: Theft, e: Event) returns (t': Theft)
    requires Robbed(ms, st, t) && Enabled(ms, st, e) && !Steals(ms, st, e)
    ensures Robbed(ms, Step(ms, st, e), t') && t' == t.(shared := t'.shared)
  {
    t' := t;
    hide Robbed, Step, Steals, Assigns, Choose;
    match e
    case Get(a, now) =>
      if Assigns(ms, st, e) {
        RobbedAssign(ms, st, t, a, now);
        t' := t.(shared := t.shared && Choose(st.slots, a.M, |ms[a.M].data|, now).0 != t.i);
      } else {
        RobbedFind(ms, st, t, a, now);
      }
    case Mark(a) => RobbedMark(ms, st, t, a);
    case Copy(a, now) => RobbedCopy(ms, st, t, a, now);
    case Subtract(a) => RobbedSubtract(ms, st, t, a);
    case Deliver(a) => RobbedDeliver(ms, st, t, a);
    case Clear(a) => RobbedClear(ms, st, t, a);
  }

  // ---- The theft and the rest of the run ---------------------------------------------

  /** The message robbed by a stealing lookup. */
  function Victim(ms: Messages, st: State, e: Event): nat
    requires Placed(ms, st) && Assigns(ms, st, e)
  {
    st.slots[Choose(st.slots, e.a.M, |ms[e.a.M].data|, e.now).0].M
  }

  /** In a sound state a stolen slot is one whose message has threads behind the lookup only. */
  lemma VictimLooks(ms: Messages, st: State, i: nat, w: Arrival)
    requires Sound(ms, st) && i < SLOTS && Free(st.slots[i]) && Inside(st, w, i)
    ensures ArrivalOk(ms, w) && st.slots[i].M == w.M && Opened(ms, st.at, w.M)
    ensures Past(st.at, w.M, 4) == NoBits() && !Won(st, w.M)
  {
    StandingOpen(ms, st, w);
    var M := w.M;
    assert st.slots[i].bits == NoBits();
    assert forall n :: 0 <= n < MAX_FRAGMENTS ==> !Past(st.at, M, 2)[n];
    assert Past(st.at, M, 4) == NoBits() by {
      forall n | 0 <= n < MAX_FRAGMENTS ensures !Past(st.at, M, 4)[n] {
        assert !Past(st.at, M, 2)[n];
      }
    }
    forall n: nat | Arrival(M, n) in st.at ensures Rank(st.at[Arrival(M, n)].phase) < 2 {
      assert ArrivalOk(ms, Arrival(M, n)) && !Past(st.at, M, 2)[n];
    }
    hide Missing, BytesOk, Calls, Sound;
  }

  lemma NotBegun(ms: Messages, st: State, a: Arrival)
    requires Sound(ms, st) && ArrivalOk(ms, a) && a !in st.at && !Opened(ms, st.at, a.M)
    ensures Past(st.at, a.M, 4) == NoBits() && !Won(st, a.M) && forall j :: 0 <= j < SLOTS ==> st.slots[j].M != a.M
  {
    assert a == Arrival(a.M, a.N);
    NotAll(ms, st.at, a.M, a.N, 6);
    assert !Begun(st.at, a.M) && CallsFine(ms, st, a.M);
    assert forall n :: Arrival(a.M, n) !in st.at;
    forall j | 0 <= j < SLOTS ensures st.slots[j].M != a.M {
      assert SlotFine(ms, st, j);
    }
    assert Past(st.at, a.M, 4) == NoBits();
  }

  /** Where a stealing lookup lands. */
  lemma StealsFree(ms: Messages, st: State, e: Event) returns (w: Arrival)
    requires Sound(ms, st) && Enabled(ms, st, e) && HasRoom(ms, st, e) && Steals(ms, st, e)
    ensures var v := Choose(st.slots, e.a.M, |ms[e.a.M].data|, e.now).0;
            && v < SLOTS && Free(st.slots[v]) && Inside(st, w, v) && !Opened(ms, st.at, e.a.M)
  {
    var v := Choose(st.slots, e.a.M, |ms[e.a.M].data|, e.now).0;
    w :| Inside(st, w, v);
    assert Find(st.slots, e.a.M) == |st.slots|;
    assert !Homed(st, e.a.M);
    assert !Opened(ms, st.at, e.a.M);
    hide Opened, OpenSet, SlotFine, CallsFine;
    FreeHome(ms, st, e.a.M);
  }

  lemma PureBefore(ms: Messages, st: State, st': State, t: Theft, j: nat)
    requires Sound(ms, st) && TheftOk(ms, st', t) && j < SLOTS && j != t.i && st.slots[j].M != t.w1.M
    requires st'.at == st.at[t.w2 := Thread(t.i, Looked)] && st'.slots[j] == st.slots[j]
    requires Inside(st, t.w1, t.i) && t.w2 !in st.at && st.slots[j].M != t.w2.M
    ensures Pure(ms, st', t, j)
  {
    assert SlotFine(ms, st, j);
    assert forall a :: Inside(st', a, j) ==> Inside(st, a, j);
    hide Floor;
  }

  /** The state behind a stealing lookup. */
  ghost predicate Stolen(ms: Messages, st: State, st': State, v: nat, w: Arrival, a: Arrival) {
    && Sound(ms, st) && Placed(ms, st') && v < SLOTS && ArrivalOk(ms, w) && ArrivalOk(ms, a) && a !in st.at
    && w.M != a.M
    && Inside(st, w, v) && st.slots[v].M == w.M && st'.at == st.at[a := Thread(v, Looked)] && st'.out == st.out
    && st'.slots == st.slots[v := st'.slots[v]] && st'.slots[v].M == a.M && st'.slots[v].need == U32(|ms[a.M].data|)
    && Past(st.at, w.M, 4) == NoBits() && Past(st.at, a.M, 4) == NoBits() && !Won(st, w.M) && !Won(st, a.M)
  }

  lemma StealsStolen(ms: Messages, st: State, e: Event) returns (w: Arrival)
    requires Sound(ms, st) && Enabled(ms, st, e) && HasRoom(ms, st, e) && Steals(ms, st, e)
    ensures var v := Choose(st.slots, e.a.M, |ms[e.a.M].data|, e.now).0;
            && Stolen(ms, st, Step(ms, st, e), v, w, e.a) && DistinctSlots(Step(ms, st, e).slots)
            && forall j :: 0 <= j < SLOTS ==> st.slots[j].M != e.a.M
  {
    w := StealsFree(ms, st, e);
    var v := Choose(st.slots, e.a.M, |ms[e.a.M].data|, e.now).0;
    VictimLooks(ms, st, v, w);
    NotBegun(ms, st, e.a);
    Duplicates.DistinctKept(st.slots, e.a.M, |ms[e.a.M].data|, e.now);
    hide Choose, HasRoom, Opened, Past, Won, Sound, DistinctSlots;
  }

  lemma StolenMixed(ms: Messages, st: State, st': State, v: nat, w: Arrival, a: Arrival)
    requires Stolen(ms, st, st', v, w, a)
    ensures var t := Theft(v, w, a, true);
            TheftOk(ms, st', t) && Mixed(ms, st', t) && !Won(st', w.M) && !Won(st', a.M)
  {
    hide Won, Past, Sound;
    PendingStart(ms, st.at, w.M);
    PendingStart(ms, st.at, a.M);
    PendingMoved(ms, st.at, a, Thread(v, Looked), w.M);
    PendingMoved(ms, st.at, a, Thread(v, Looked), a.M);
    hide Pending;
    WonSame(st, st', a, Thread(v, Looked), w.M);
    WonSame(st, st', a, Thread(v, Looked), a.M);
    MetHere(ms, st, st', v, w, a);
  }

  lemma TheftStarts(ms: Messages, st: State, e: Event) returns (t: Theft)
    requires Sound(ms, st) && Enabled(ms, st, e) && HasRoom(ms, st, e) && Steals(ms, st, e)
    ensures Robbed(ms, Step(ms, st, e), t) && t.w1.M == Victim(ms, st, e) && t.w2 == e.a
  {
    var w := StealsStolen(ms, st, e);
    var v, st' := Choose(st.slots, e.a.M, |ms[e.a.M].data|, e.now).0, Step(ms, st, e);
    t := Theft(v, w, e.a, true);
    StolenMixed(ms, st, st', v, w, e.a);
    hide Step, Choose, HasRoom, Past, Mixed, Won, Sound, Pure;
    forall j | 0 <= j < SLOTS && j != v ensures Pure(ms, st', t, j) {
      assert st.slots[j].M == w.M ==> st.slots[j].M == st.slots[v].M;
      VictimAlone(ms, st, v, w, j);
      PureBefore(ms, st, st', t, j);
    }
  }

  lemma VictimAlone(ms: Messages, st: State, v: nat, w: Arrival, j: nat)
    requires Sound(ms, st) && v < SLOTS && j < SLOTS && j != v && st.slots[v].M == w.M && ArrivalOk(ms, w)
    ensures st.slots[j].M != w.M
  {
  }

  lemma PendingStart(ms: Messages, at: map<Arrival, Thread>, M: nat)
    requires MessagesOk(ms) && M in ms && Past(at, M, 4) == NoBits()
    ensures Pending(ms, at, M) == |ms[M].data| <= BUFFER
  {
    MissingAll(|ms[M].data|, NoBits(), FragmentCount(|ms[M].data|));
  }

  lemma MetHere(ms: Messages, st: State, st': State, v: nat, w: Arrival, a: Arrival)
    requires Sound(ms, st) && v < SLOTS && st'.at == st.at[a := Thread(v, Looked)] && st.slots[v].M == w.M
    ensures forall b :: Inside(st', b, v) ==> b.M == w.M || b.M == a.M
  {
    assert SlotFine(ms, st, v);
    assert forall b :: Inside(st', b, v) ==> b == a || Inside(st, b, v);
  }

  lemma {:induction false} RobbedRun(ms: Messages, ss: seq<Slot>, es: seq<Event>, i: nat, n: nat) returns (t: Theft)
    requires MessagesOk(ms) && Shaped(ss) && Before(ms, ss, es, |es|).Some? && i < n <= |es|
    requires forall j :: 0 <= j <= i ==> RoomAt(ms, ss, es, j)
    requires StealAt(ms, ss, es, i) && forall j :: 0 <= j < n && j != i ==> !StealAt(ms, ss, es, j)
    ensures Before(ms, ss, es, n).Some? && Robbed(ms, Before(ms, ss, es, n).value, t)
    ensures t.w1.M == Victim(ms, Before(ms, ss, es, i).value, es[i]) && t.w2 == es[i].a
    decreases n
  {
    hide Robbed, Sound, Run, Enabled, Step, HasRoom, Steals, Choose;
    NextState(ms, ss, es, n - 1);
    var st := Before(ms, ss, es, n - 1).value;
    if n == i + 1 {
      SafePrefix(ms, ss, es, i);
      assert RoomAt(ms, ss, es, i);
      t := TheftStarts(ms, st, es[i]);
    } else {
      var t0 := RobbedRun(ms, ss, es, i, n - 1);
      assert !StealAt(ms, ss, es, n - 1);
      t := RobbedStep(ms, st, t0, es[n - 1]);
    }
  }

  /** In a run with one stolen slot the message robbed and the robber are not both delivered. */
  lemma StealLoses(ms: Messages, ss: seq<Slot>, es: seq<Event>, i: nat)
    requires MessagesOk(ms) && Shaped(ss) && Run(ms, Initial(ss), es).Some?
    requires forall j :: 0 <= j <= i ==> RoomAt(ms, ss, es, j)
    requires StealAt(ms, ss, es, i) && forall j :: 0 <= j < |es| && j != i ==> !StealAt(ms, ss, es, j)
    ensures var M, out := Victim(ms, Before(ms, ss, es, i).value, es[i]), Run(ms, Initial(ss), es).value.out;
            M in ms && es[i].a.M in ms && (Calls(out, M) == [] || Calls(out, es[i].a.M) == [])
  {
    assert es[..|es|] == es;
    hide Run, Steals, RoomAt;
    var t := RobbedRun(ms, ss, es, i, |es|);
  }

  /** Every message is called exactly once, with its bytes. */
  predicate AllDelivered(ms: Messages, st: State) {
    forall M :: M in ms ==> Calls(st.out, M) == [ms[M]]
  }

  /** For every run in which all fragments of all messages have been handled, and in which at most
      one lookup steals a slot, all messages are delivered exactly if none does. */
  lemma DeliveredIffNoSteal(ms: Messages, ss: seq<Slot>, es: seq<Event>)
    requires MessagesOk(ms) && Shaped(ss) && Run(ms, Initial(ss), es).Some?
    requires forall j :: 0 <= j < |es| ==> RoomAt(ms, ss, es, j)
    requires forall i, j ::
            0 <= i < |es| && 0 <= j < |es| && StealAt(ms, ss, es, i) && StealAt(ms, ss, es, j) ==> i == j
    requires forall M :: M in ms ==> Closed(ms, Run(ms, Initial(ss), es).value.at, M)
    ensures AllDelivered(ms, Run(ms, Initial(ss), es).value) <==> forall i :: 0 <= i < |es| ==> !StealAt(ms, ss, es, i)
  {
    hide Run, StealAt, RoomAt, Closed;
    if i :| 0 <= i < |es| && StealAt(ms, ss, es, i) {
      StealLoses(ms, ss, es, i);
    } else {
      forall M | M in ms ensures Calls(Run(ms, Initial(ss), es).value.out, M) == [ms[M]] {
        EveryInterleaving(ms, ss, es, M);
      }
    }
  }
}
