/** Three runs on two or three threads: one in which a stolen slot loses both messages, one in
    which an overlapping lookup steals nothing and all messages are delivered, and one in which a
    second theft repairs the first. */
module ConcurrentRuns {
  import opened Words
  import opened Bytes
  import opened Fragments
  import opened Reassembly
  import opened RoundTrip
  import opened Concurrent
  import opened ConcurrentSafe
  import opened ConcurrentOverlap

  /** A run goes on. */
  lemma Onward(ms: Messages, st0: State, es: seq<Event>, st: State, e: Event)
    requires Placed(ms, st0) && Run(ms, st0, es) == Some(st) && Enabled(ms, st, e)
    ensures Placed(ms, st) && Run(ms, st0, es + [e]) == Some(Step(ms, st, e))
  {
    assert (es + [e])[..|es|] == es;
    hide Step, Enabled;
  }

  predicate Single(m: Message) {
    0 < |m.data| <= MAX_PACKET
  }

  lemma SingleMessage(m: Message)
    requires Single(m)
    ensures FragmentCount(|m.data|) == 1 && FragmentLength(|m.data|, 0) == |m.data|
    ensures Sendable(m)
  {
  }

  const A: Arrival := Arrival(1, 0)
  const B: Arrival := Arrival(2, 0)

  predicate Pair(ms: Messages) {
    MessagesOk(ms) && ms.Keys == {1, 2} && Single(ms[1]) && Single(ms[2])
  }

  /** Both threads in slot 0, at these phases; its first bit and its counter. */
  predicate Both(ms: Messages, st: State, p: Phase, q: Phase, bit: bool, need: nat) {
    && Placed(ms, st) && st.at == map[A := Thread(0, p), B := Thread(0, q)] && st.out == []
    && st.slots[0].bits[0] == bit && st.slots[0].need == need
  }

  lemma BothLook(ms: Messages, ss: seq<Slot>, now: nat)
    requires Pair(ms) && Shaped(ss)
    ensures Enabled(ms, Initial(ss), Get(A, now)) && Enabled(ms, Step(ms, Initial(ss), Get(A, now)), Get(B, now))
    ensures Both(ms, Step(ms, Step(ms, Initial(ss), Get(A, now)), Get(B, now)), Looked, Looked, false, |ms[2].data|)
  {
    SingleMessage(ms[1]);
    SingleMessage(ms[2]);
    var rs := Reset(ss);
    assert Find(rs, 1) == 4 && FirstFree(rs) == 0;
    var s1 := Step(ms, Initial(ss), Get(A, now));
    assert s1.slots[0].M == 1 && Free(s1.slots[0]);
    assert Find(s1.slots, 2) == 4 && FirstFree(s1.slots) == 0;
  }

  lemma MarkFirst(ms: Messages, st: State, need: nat)
    requires Pair(ms) && Both(ms, st, Looked, Looked, false, need)
    ensures Both(ms, Step(ms, st, Mark(A)), Marked, Looked, true, need)
  {
  }

  lemma MarkSecond(ms: Messages, st: State, need: nat)
    requires Pair(ms) && Both(ms, st, Marked, Looked, true, need)
    ensures Both(ms, Step(ms, st, Mark(B)), Marked, Left(BadData), true, need)
  {
  }

  lemma CopyFirst(ms: Messages, st: State, need: nat, now: nat)
    requires Pair(ms) && Both(ms, st, Marked, Left(BadData), true, need)
    ensures Both(ms, Step(ms, st, Copy(A, now)), Copied, Left(BadData), true, need)
  {
    hide Put;
  }

  lemma SubtractFirst(ms: Messages, st: State, need: nat)
    requires Pair(ms) && Both(ms, st, Copied, Left(BadData), true, need) && need != |ms[1].data|
    ensures Both(ms, Step(ms, st, Subtract(A)), Left(Success), Left(BadData), true, U32(need - |ms[1].data|))
  {
    SingleMessage(ms[1]);
    assert |Part(ms, A).buf| == |ms[1].data|;
  }

  lemma BothClosed(ms: Messages, at: map<Arrival, Thread>)
    requires Pair(ms) && at.Keys == {A, B} && at[A].phase.Left? && at[B].phase.Left?
    ensures Closed(ms, at, 1) && Closed(ms, at, 2)
  {
    SingleMessage(ms[1]);
    SingleMessage(ms[2]);
  }

  /** Both lookups run before either bit is set, so both threads get slot 0. The second bit test
      finds the first one's bit, and the first one's bytes are subtracted from the second's
      length: neither message is ever delivered. */
  lemma BothLost(ms: Messages, ss: seq<Slot>, now: nat) returns (es: seq<Event>)
    requires Pair(ms) && |ms[1].data| != |ms[2].data| && Shaped(ss)
    ensures es == [Get(A, now), Get(B, now), Mark(A), Mark(B), Copy(A, now), Subtract(A)]
    ensures Run(ms, Initial(ss), es).Some?
    ensures var st := Run(ms, Initial(ss), es).value;
            && Closed(ms, st.at, 1) && Closed(ms, st.at, 2) && st.out == []
            && st.at[A].phase == Left(Success) && st.at[B].phase == Left(BadData)
  {
    var s0 := Initial(ss);
    BothLook(ms, ss, now);
    assert Run(ms, s0, []) == Some(s0);
    hide Step, Run, Closed;
    es := [Get(A, now)];
    var s1 := Step(ms, s0, Get(A, now));
    Onward(ms, s0, [], s0, Get(A, now));
    var s2 := Step(ms, s1, Get(B, now));
    Onward(ms, s0, es, s1, Get(B, now));
    es := es + [Get(B, now)];
    MarkFirst(ms, s2, |ms[2].data|);
    var s3 := Step(ms, s2, Mark(A));
    Onward(ms, s0, es, s2, Mark(A));
    es := es + [Mark(A)];
    MarkSecond(ms, s3, |ms[2].data|);
    var s4 := Step(ms, s3, Mark(B));
    Onward(ms, s0, es, s3, Mark(B));
    es := es + [Mark(B)];
    CopyFirst(ms, s4, |ms[2].data|, now);
    var s5 := Step(ms, s4, Copy(A, now));
    Onward(ms, s0, es, s4, Copy(A, now));
    es := es + [Copy(A, now)];
    SubtractFirst(ms, s5, |ms[2].data|);
    Onward(ms, s0, es, s5, Subtract(A));
    es := es + [Subtract(A)];
    BothClosed(ms, Step(ms, s5, Subtract(A)).at);
  }

  // ---- A thread that finishes its message --------------------------------------------

  /** Thread x alone will bring the counter of slot i to zero. */
  predicate Lone(ms: Messages, st: State, x: Arrival, p: Phase, i: nat) {
    && Placed(ms, st) && x.N == 0 && x.M in ms && Single(ms[x.M]) && x in st.at && st.at[x] == Thread(i, p) && i < SLOTS
    && st.slots[i].need == |ms[x.M].data|
  }

  /** Only x has moved, to phase p, and only bits, bytes and counter of slot i have changed. */
  predicate Moved1(st: State, st': State, x: Arrival, p: Phase, i: nat) {
    && x in st.at && i < |st.slots| == |st'.slots|
    && st'.at == st.at[x := Thread(i, p)] && st'.slots == st.slots[i := st'.slots[i]]
    && st'.slots[i].M == st.slots[i].M && st'.slots[i].length == st.slots[i].length
  }

  predicate Holds(st: State, i: nat, m: Message) {
    i < |st.slots| && |m.data| <= |st.slots[i].buf| && st.slots[i].buf[..|m.data|] == m.data
  }

  lemma WholePart(ms: Messages, x: Arrival)
    requires MessagesOk(ms) && x.N == 0 && x.M in ms && Single(ms[x.M])
    ensures ArrivalOk(ms, x) && Part(ms, x).buf == ms[x.M].data && Part(ms, x).kind == ms[x.M].kind
  {
    SingleMessage(ms[x.M]);
    var m := ms[x.M];
    assert m.data[0..|m.data|] == m.data;
  }

  lemma CopiesAlone(ms: Messages, st: State, x: Arrival, i: nat, now: nat)
    requires Lone(ms, st, x, Marked, i)
    ensures var st' := Step(ms, st, Copy(x, now));
            && Lone(ms, st', x, Copied, i) && Moved1(st, st', x, Copied, i) && st'.out == st.out
            && Holds(st', i, ms[x.M])
  {
    WholePart(ms, x);
    var m, buf := ms[x.M], st.slots[i].buf;
    assert Put(buf, 0, m.data)[..|m.data|] == m.data;
    hide Part, Put;
  }

  lemma SubtractsAlone(ms: Messages, st: State, x: Arrival, i: nat)
    requires Lone(ms, st, x, Copied, i) && Holds(st, i, ms[x.M])
    ensures var st' := Step(ms, st, Subtract(x));
            && Placed(ms, st') && x in st'.at && st'.at[x] == Thread(i, Complete) && Moved1(st, st', x, Complete, i)
            && st'.out == st.out && Holds(st', i, ms[x.M])
  {
    WholePart(ms, x);
    hide Part;
  }

  lemma LeavesAlone(ms: Messages, st: State, x: Arrival, i: nat)
    requires Placed(ms, st) && x in st.at && st.at[x] == Thread(i, Complete) && i < SLOTS && x.N == 0
    requires Single(ms[x.M]) && Holds(st, i, ms[x.M])
    ensures var st1 := Step(ms, st, Deliver(x));
            && Enabled(ms, st1, Clear(x))
            && var st' := Step(ms, st1, Clear(x));
               && Placed(ms, st') && Moved1(st, st', x, Left(Success), i) && Free(st'.slots[i])
               && st'.out == st.out + [Call(x.M, ms[x.M])]
  {
    WholePart(ms, x);
    assert Message(ms[x.M].kind, ms[x.M].data) == ms[x.M];
    hide Part;
  }

  lemma Four(es: seq<Event>, a: Event, b: Event, c: Event, d: Event)
    ensures es + [a] + [b] + [c] + [d] == es + [a, b, c, d]
  {
  }

  /** From its bit on. */
  lemma FinishesAlone(ms: Messages, s0: State, es: seq<Event>, st: State, x: Arrival, i: nat, now: nat)
    returns (fs: seq<Event>, st': State)
    requires Placed(ms, s0) && Run(ms, s0, es) == Some(st) && Lone(ms, st, x, Marked, i)
    ensures fs == [Copy(x, now), Subtract(x), Deliver(x), Clear(x)] && Run(ms, s0, es + fs) == Some(st')
    ensures Placed(ms, st') && Moved1(st, st', x, Left(Success), i) && Free(st'.slots[i])
    ensures st'.out == st.out + [Call(x.M, ms[x.M])]
  {
    hide Step, Run, Free, Holds, Single;
    CopiesAlone(ms, st, x, i, now);
    var s1 := Step(ms, st, Copy(x, now));
    SubtractsAlone(ms, s1, x, i);
    var s2 := Step(ms, s1, Subtract(x));
    LeavesAlone(ms, s2, x, i);
    var s3 := Step(ms, s2, Deliver(x));
    st' := Step(ms, s3, Clear(x));
    Onward(ms, s0, es, st, Copy(x, now));
    Onward(ms, s0, es + [Copy(x, now)], s1, Subtract(x));
    Onward(ms, s0, es + [Copy(x, now)] + [Subtract(x)], s2, Deliver(x));
    Onward(ms, s0, es + [Copy(x, now)] + [Subtract(x)] + [Deliver(x)], s3, Clear(x));
    fs := [Copy(x, now), Subtract(x), Deliver(x), Clear(x)];
    Four(es, Copy(x, now), Subtract(x), Deliver(x), Clear(x));
    Chained(st, s1, s2, st', x, i);
  }

  lemma Chained(st: State, s1: State, s2: State, st': State, x: Arrival, i: nat)
    requires Moved1(st, s1, x, Copied, i) && Moved1(s1, s2, x, Complete, i) && Moved1(s2, st', x, Left(Success), i)
    ensures Moved1(st, st', x, Left(Success), i)
  {
  }

  // ---- Overlap without theft ---------------------------------------------------------

  const C: Arrival := Arrival(3, 0)

  /** A new message gets the first free slot. */
  lemma GetsFree(ms: Messages, st: State, a: Arrival, now: nat)
    requires Placed(ms, st) && ArrivalOk(ms, a) && a !in st.at
    requires Find(st.slots, a.M) == |st.slots| && FirstFree(st.slots) < |st.slots|
    ensures var i, L, st' := FirstFree(st.slots), |ms[a.M].data|, Step(ms, st, Get(a, now));
            && Placed(ms, st') && Assigns(ms, st, Get(a, now)) && st'.out == st.out
            && st'.at == st.at[a := Thread(i, Looked)]
            && st'.slots == st.slots[i := st.slots[i].(length := L, need := U32(L), M := a.M)]
  {
  }

  /** A thread alone in its slot sets its bit. */
  lemma MarksFirst(ms: Messages, st: State, x: Arrival, i: nat)
    requires Lone(ms, st, x, Looked, i) && Free(st.slots[i])
    ensures var st' := Step(ms, st, Mark(x));
            && Lone(ms, st', x, Marked, i) && Moved1(st, st', x, Marked, i) && st'.out == st.out && st'.slots[i].bits[0]
  {
    WholePart(ms, x);
    hide Part;
  }

  /** Three steps are a run. */
  lemma Three(ms: Messages, s0: State, a: Event, b: Event, c: Event)
    requires Placed(ms, s0) && Enabled(ms, s0, a) && Enabled(ms, Step(ms, s0, a), b)
    requires Enabled(ms, Step(ms, Step(ms, s0, a), b), c)
    ensures Run(ms, s0, [a]) == Some(Step(ms, s0, a))
    ensures Run(ms, s0, [a, b, c]) == Some(Step(ms, Step(ms, Step(ms, s0, a), b), c))
  {
    assert Run(ms, s0, []) == Some(s0);
    hide Step, Enabled, Run;
    assert [] + [a] == [a] && [a] + [b] == [a, b] && [a, b] + [c] == [a, b, c];
    Onward(ms, s0, [], s0, a);
    Onward(ms, s0, [a], Step(ms, s0, a), b);
    Onward(ms, s0, [a, b], Step(ms, Step(ms, s0, a), b), c);
  }

  /** Nobody has come and all slots are free. */
  predicate Fresh(ms: Messages, st: State) {
    && Placed(ms, st) && st.at == map[] && st.out == []
    && forall j :: 0 <= j < SLOTS ==> st.slots[j].M == NO_MESSAGE && Free(st.slots[j])
  }

  lemma InitialFresh(ms: Messages, ss: seq<Slot>)
    requires MessagesOk(ms) && Shaped(ss)
    ensures Fresh(ms, Initial(ss))
  {
  }

  /** The first message of all gets slot 0. */
  lemma FirstGets(ms: Messages, st: State, x: Arrival, now: nat)
    requires Fresh(ms, st) && ArrivalOk(ms, x)
    ensures Enabled(ms, st, Get(x, now))
    ensures var st', s := Step(ms, st, Get(x, now)),
            st.slots[0].(length := |ms[x.M].data|, need := U32(|ms[x.M].data|), M := x.M);
            && Placed(ms, st') && st'.at == map[x := Thread(0, Looked)] && st'.out == []
            && st'.slots == st.slots[0 := s]
  {
    assert Find(st.slots, x.M) == 4 && FirstFree(st.slots) == 0;
    hide Step;
    GetsFree(ms, st, x, now);
  }

  lemma MarkedThenLooked(ms: Messages, s0: State, now: nat) returns (s2: State, st: State)
    requires Fresh(ms, s0) && {1, 3} <= ms.Keys && Single(ms[1]) && Single(ms[3])
    requires ArrivalOk(ms, A) && ArrivalOk(ms, C)
    ensures Enabled(ms, s0, Get(C, now)) && Enabled(ms, Step(ms, s0, Get(C, now)), Mark(C))
    ensures s2 == Step(ms, Step(ms, s0, Get(C, now)), Mark(C)) && Enabled(ms, s2, Get(A, now))
    ensures st == Step(ms, s2, Get(A, now)) && Placed(ms, s2) && Assigns(ms, s2, Get(A, now))
    ensures Placed(ms, st) && st.at == map[C := Thread(0, Marked), A := Thread(1, Looked)] && st.out == []
    ensures Lone(ms, st, C, Marked, 0) && st.slots[0].M == 3 && Awaits(ms, st, A, 1)
    ensures st.slots[2].M == NO_MESSAGE && st.slots[3].M == NO_MESSAGE
  {
    FirstGets(ms, s0, C, now);
    var s1 := Step(ms, s0, Get(C, now));
    hide Step, ArrivalOk;
    MarksFirst(ms, s1, C, 0);
    s2 := Step(ms, s1, Mark(C));
    assert s2.slots[1] == s0.slots[1] && s2.slots[2] == s0.slots[2] && s2.slots[3] == s0.slots[3];
    assert Find(s2.slots, 1) == 4 && FirstFree(s2.slots) == 1;
    hide Find, FirstFree;
    GetsFree(ms, s2, A, now);
    st := Step(ms, s2, Get(A, now));
  }

  /** Thread x has assigned slot i to its message and not set its bit yet. */
  predicate Awaits(ms: Messages, st: State, x: Arrival, i: nat) {
    i < |st.slots| && st.slots[i].M == x.M && Lone(ms, st, x, Looked, i) && Free(st.slots[i])
  }

  lemma FirstMarked(ms: Messages, ss: seq<Slot>, now: nat) returns (es: seq<Event>, s2: State, st: State)
    requires MessagesOk(ms) && {1, 2, 3} <= ms.Keys && Single(ms[1]) && Single(ms[3]) && Shaped(ss)
    ensures es == [Get(C, now), Mark(C), Get(A, now)] && Run(ms, Initial(ss), es) == Some(st)
    ensures Run(ms, Initial(ss), [Get(C, now), Mark(C)]) == Some(s2) && Assigns(ms, s2, Get(A, now)) && Placed(ms, s2)
    ensures Placed(ms, st) && st.at == map[C := Thread(0, Marked), A := Thread(1, Looked)] && st.out == []
    ensures Lone(ms, st, C, Marked, 0) && st.slots[0].M == 3 && Awaits(ms, st, A, 1)
    ensures st.slots[2].M == NO_MESSAGE && st.slots[3].M == NO_MESSAGE
  {
    WholePart(ms, C);
    WholePart(ms, A);
    InitialFresh(ms, ss);
    hide Step, Run, Part, ArrivalOk, Lone, Reset, Initial, Enabled, Assigns, Awaits;
    var s3;
    s2, s3 := MarkedThenLooked(ms, Initial(ss), now);
    es, st := [Get(C, now), Mark(C), Get(A, now)], s3;
    Three(ms, Initial(ss), Get(C, now), Mark(C), Get(A, now));
  }

  /** Thread C is done while thread A stands before its bit: a lookup that now assigns a slot takes
      nothing from A, because the slot with the lower index has become free. */
  lemma LowerSlot(ms: Messages, s1: State, st: State, now: nat)
    requires Placed(ms, s1) && Placed(ms, st) && ArrivalOk(ms, B) && Single(ms[2])
    requires s1.at == map[C := Thread(0, Marked), A := Thread(1, Looked)] && s1.slots[0].M == 3 && Awaits(ms, s1, A, 1)
    requires s1.slots[2].M == NO_MESSAGE && s1.slots[3].M == NO_MESSAGE
    requires Moved1(s1, st, C, Left(Success), 0) && Free(st.slots[0])
    ensures Enabled(ms, st, Get(B, now)) && Assigns(ms, st, Get(B, now)) && Awaits(ms, st, A, 1)
    ensures var st' := Step(ms, st, Get(B, now));
            && st'.at == map[C := Thread(0, Left(Success)), A := Thread(1, Looked), B := Thread(0, Looked)]
            && Placed(ms, st') && st'.out == st.out && Awaits(ms, st', A, 1) && Awaits(ms, st', B, 0)
  {
    assert Find(st.slots, 2) == 4 && FirstFree(st.slots) == 0;
    hide Step, ArrivalOk, Find, FirstFree;
    GetsFree(ms, st, B, now);
  }

  /** From its lookup on. */
  lemma AwaitedFinishes(ms: Messages, s0: State, es: seq<Event>, st: State, x: Arrival, i: nat, now: nat)
    returns (fs: seq<Event>, st': State)
    requires Placed(ms, s0) && Run(ms, s0, es) == Some(st) && Awaits(ms, st, x, i)
    ensures Run(ms, s0, es + fs) == Some(st') && Placed(ms, st') && Moved1(st, st', x, Left(Success), i)
    ensures st'.out == st.out + [Call(x.M, ms[x.M])]
  {
    hide Step, Run, Free;
    MarksFirst(ms, st, x, i);
    var s1 := Step(ms, st, Mark(x));
    Onward(ms, s0, es, st, Mark(x));
    fs, st' := FinishesAlone(ms, s0, es + [Mark(x)], s1, x, i, now);
    assert es + [Mark(x)] + fs == es + ([Mark(x)] + fs);
    fs := [Mark(x)] + fs;
  }

  lemma StillAwaits(ms: Messages, st: State, st': State, x: Arrival, y: Arrival, i: nat, j: nat)
    requires Awaits(ms, st, x, i) && Placed(ms, st') && Moved1(st, st', y, Left(Success), j) && x != y && i != j
    ensures Awaits(ms, st', x, i)
  {
  }

  /** A lookup assigns a slot while another thread stands between its own assigning lookup and its
      bit, and yet nothing is taken, and in the end all three messages have been delivered. */
  lemma OverlapWithoutTheft(ms: Messages, ss: seq<Slot>, now: nat) returns (es: seq<Event>, st: State)
    requires MessagesOk(ms) && ms.Keys == {1, 2, 3} && Single(ms[1]) && Single(ms[2]) && Single(ms[3]) && Shaped(ss)
    ensures Run(ms, Initial(ss), es) == Some(st) && OverlapAt(ms, ss, es, 7)
    ensures forall M :: M in ms ==> Closed(ms, st.at, M) && Calls(st.out, M) == [ms[M]]
  {
    hide *;
    var es1, fs, x, s2, s3 := OverlapBegins(ms, ss, now);
    var rest, s4, s5 := OverlapEnds(ms, Initial(ss), es1 + fs + [Get(B, now)], s3, now);
    OverlapHere(ms, ss, es1, fs, rest, x, s2, now);
    es, st := es1 + fs + [Get(B, now)] + rest, s5;
    AllThree(ms, s3, s4, s5);
  }

  lemma OverlapBegins(ms: Messages, ss: seq<Slot>, now: nat)
    returns (es1: seq<Event>, fs: seq<Event>, x: State, s2: State, s3: State)
    requires MessagesOk(ms) && {1, 2, 3} <= ms.Keys && Single(ms[1]) && Single(ms[2]) && Single(ms[3]) && Shaped(ss)
    ensures es1 == [Get(C, now), Mark(C), Get(A, now)] && |fs| == 4 && Placed(ms, Initial(ss))
    ensures Run(ms, Initial(ss), [Get(C, now), Mark(C)]) == Some(x) && Placed(ms, x) && Assigns(ms, x, Get(A, now))
    ensures Run(ms, Initial(ss), es1 + fs) == Some(s2) && Placed(ms, s2) && Assigns(ms, s2, Get(B, now))
    ensures Awaits(ms, s2, A, 1)
    ensures Run(ms, Initial(ss), es1 + fs + [Get(B, now)]) == Some(s3) && Placed(ms, s3)
    ensures Awaits(ms, s3, A, 1) && Awaits(ms, s3, B, 0) && s3.out == [] + [Call(3, ms[3])]
    ensures s3.at == map[C := Thread(0, Left(Success)), A := Thread(1, Looked), B := Thread(0, Looked)]
  {
    WholePart(ms, B);
    InitialFresh(ms, ss);
    hide *;
    var s1;
    es1, x, s1 := FirstMarked(ms, ss, now);
    fs, s2 := FinishesAlone(ms, Initial(ss), es1, s1, C, 0, now);
    LowerSlot(ms, s1, s2, now);
    Onward(ms, Initial(ss), es1 + fs, s2, Get(B, now));
    s3 := Step(ms, s2, Get(B, now));
  }

  lemma OverlapEnds(ms: Messages, s0: State, es: seq<Event>, s3: State, now: nat)
    returns (rest: seq<Event>, s4: State, s5: State)
    requires Placed(ms, s0) && Run(ms, s0, es) == Some(s3) && Awaits(ms, s3, A, 1) && Awaits(ms, s3, B, 0)
    ensures Run(ms, s0, es + rest) == Some(s5) && Moved1(s3, s4, B, Left(Success), 0)
    ensures Moved1(s4, s5, A, Left(Success), 1) && 1 in ms && 2 in ms
    ensures s4.out == s3.out + [Call(2, ms[2])] && s5.out == s4.out + [Call(1, ms[1])]
  {
    hide Run, Moved1, Free, Single;
    var gs, hs;
    gs, s4 := AwaitedFinishes(ms, s0, es, s3, B, 0, now);
    StillAwaits(ms, s3, s4, A, B, 1, 0);
    hs, s5 := AwaitedFinishes(ms, s0, es + gs, s4, A, 1, now);
    rest := gs + hs;
    assert es + gs + hs == es + rest;
  }

  lemma OverlapHere(ms: Messages, ss: seq<Slot>, es1: seq<Event>, fs: seq<Event>, rest: seq<Event>, x: State, s2: State,
                    now: nat)
    requires MessagesOk(ms) && Shaped(ss) && es1 == [Get(C, now), Mark(C), Get(A, now)] && |fs| == 4
    requires Run(ms, Initial(ss), [Get(C, now), Mark(C)]) == Some(x) && Placed(ms, x) && Assigns(ms, x, Get(A, now))
    requires Run(ms, Initial(ss), es1 + fs) == Some(s2) && Placed(ms, s2) && Assigns(ms, s2, Get(B, now))
    requires Awaits(ms, s2, A, 1)
    ensures OverlapAt(ms, ss, es1 + fs + [Get(B, now)] + rest, 7)
  {
    hide Run, Assigns, Placed;
    var es := es1 + fs + [Get(B, now)] + rest;
    assert es[..2] == [Get(C, now), Mark(C)] && es[..7] == es1 + fs;
    assert Unmarked(ms, ss, es, 2, s2);
  }

  lemma AllThree(ms: Messages, s3: State, s4: State, s5: State)
    requires MessagesOk(ms) && ms.Keys == {1, 2, 3} && Single(ms[1]) && Single(ms[2]) && Single(ms[3])
    requires s3.at == map[C := Thread(0, Left(Success)), A := Thread(1, Looked), B := Thread(0, Looked)]
    requires Moved1(s3, s4, B, Left(Success), 0) && Moved1(s4, s5, A, Left(Success), 1)
    requires s3.out == [] + [Call(3, ms[3])] && s4.out == s3.out + [Call(2, ms[2])]
    requires s5.out == s4.out + [Call(1, ms[1])]
    ensures forall M :: M in ms ==> Closed(ms, s5.at, M) && Calls(s5.out, M) == [ms[M]]
  {
    SingleMessage(ms[1]);
    SingleMessage(ms[2]);
    SingleMessage(ms[3]);
    forall M | M in ms ensures Calls(s5.out, M) == [ms[M]] {
      CallsNext([], Call(3, ms[3]), M);
      CallsNext(s3.out, Call(2, ms[2]), M);
      CallsNext(s4.out, Call(1, ms[1]), M);
    }
  }

  // ---- A theft repaired --------------------------------------------------------------

  const A2: Arrival := Arrival(1, 1)

  lemma LookedThenStolen(ms: Messages, s0: State, now: nat) returns (s1: State, st: State)
    requires Fresh(ms, s0) && {1, 2} <= ms.Keys && Single(ms[2]) && ArrivalOk(ms, A) && ArrivalOk(ms, B)
    ensures Enabled(ms, s0, Get(A, now)) && s1 == Step(ms, s0, Get(A, now)) && Enabled(ms, s1, Get(B, now))
    ensures Steals(ms, s1, Get(B, now)) && Enabled(ms, Step(ms, s1, Get(B, now)), Mark(B))
    ensures st == Step(ms, Step(ms, s1, Get(B, now)), Mark(B))
    ensures Placed(ms, st) && st.at == map[A := Thread(0, Looked), B := Thread(0, Marked)] && st.out == []
    ensures Lone(ms, st, B, Marked, 0) && st.slots[0].M == 2
    ensures forall j :: 1 <= j < SLOTS ==> st.slots[j] == s0.slots[j]
  {
    FirstGets(ms, s0, A, now);
    s1 := Step(ms, s0, Get(A, now));
    hide Step, ArrivalOk;
    assert Find(s1.slots, 2) == 4 && FirstFree(s1.slots) == 0 && Inside(s1, A, 0);
    GetsFree(ms, s1, B, now);
    var s2 := Step(ms, s1, Get(B, now));
    hide Find, FirstFree;
    MarksFirst(ms, s2, B, 0);
    st := Step(ms, s2, Mark(B));
  }

  lemma TheftOfFirst(ms: Messages, ss: seq<Slot>, now: nat) returns (es: seq<Event>, st: State)
    requires MessagesOk(ms) && ms.Keys == {1, 2} && Single(ms[2]) && Shaped(ss)
    ensures es == [Get(A, now), Get(B, now), Mark(B)] && Run(ms, Initial(ss), es) == Some(st)
    ensures Run(ms, Initial(ss), es[..1]).Some? && Steals(ms, Run(ms, Initial(ss), es[..1]).value, Get(B, now))
    ensures Placed(ms, st) && st.at == map[A := Thread(0, Looked), B := Thread(0, Marked)] && st.out == []
    ensures Lone(ms, st, B, Marked, 0) && st.slots[0].M == 2
    ensures forall j :: 1 <= j < SLOTS ==> st.slots[j].M == NO_MESSAGE && Free(st.slots[j])
  {
    WholePart(ms, B);
    InitialFresh(ms, ss);
    assert ArrivalOk(ms, A);
    hide Step, Run, Part, ArrivalOk, Lone, Reset, Initial, Enabled, Steals, Free;
    var s1, s3 := LookedThenStolen(ms, Initial(ss), now);
    es, st := [Get(A, now), Get(B, now), Mark(B)], s3;
    assert es[..1] == [Get(A, now)];
    Three(ms, Initial(ss), Get(A, now), Get(B, now), Mark(B));
  }

  /** The slot is stolen from the first fragment of message 1, and stolen again by its second
      fragment once the robber is done: the state is sound again, message 2 has been delivered, and
      message 1 stands in its slot as if nothing had happened. So thefts can cancel out. */
  lemma TheftRepaired(ms: Messages, ss: seq<Slot>, now: nat) returns (es: seq<Event>, st: State)
    requires MessagesOk(ms) && ms.Keys == {1, 2} && Single(ms[2]) && FragmentCount(|ms[1].data|) == 2 && Shaped(ss)
    ensures Run(ms, Initial(ss), es) == Some(st) && |es| > 1 && StealAt(ms, ss, es, 1) && StealAt(ms, ss, es, |es| - 1)
    ensures Sound(ms, st) && A in st.at && A2 in st.at && Closed(ms, st.at, 2) && Calls(st.out, 2) == [ms[2]]
  {
    hide Run, Step, Lone, Moved1, StealAt;
    var es1, s1 := TheftOfFirst(ms, ss, now);
    var fs, s2 := FinishesAlone(ms, Initial(ss), es1, s1, B, 0, now);
    Restolen(ms, s1, s2, now);
    st := Step(ms, s2, Get(A2, now));
    Onward(ms, Initial(ss), es1 + fs, s2, Get(A2, now));
    es := es1 + fs + [Get(A2, now)];
    assert es[..|es| - 1] == es1 + fs && es[..1] == es1[..1];
    StealsSame(ms, ss, es1, es, 1);
    StealHere(ms, ss, es, s2);
  }

  lemma StealsSame(ms: Messages, ss: seq<Slot>, es: seq<Event>, fs: seq<Event>, i: nat)
    requires MessagesOk(ms) && Shaped(ss) && i < |es| && i < |fs| && es[..i] == fs[..i] && es[i] == fs[i]
    requires Run(ms, Initial(ss), es[..i]).Some? && Steals(ms, Run(ms, Initial(ss), es[..i]).value, es[i])
    ensures StealAt(ms, ss, fs, i)
  {
  }

  lemma StealHere(ms: Messages, ss: seq<Slot>, es: seq<Event>, st: State)
    requires MessagesOk(ms) && Shaped(ss) && |es| > 0 && Run(ms, Initial(ss), es[..|es| - 1]) == Some(st)
    requires Placed(ms, st) && Steals(ms, st, es[|es| - 1])
    ensures StealAt(ms, ss, es, |es| - 1)
  {
  }

  lemma Restolen(ms: Messages, s1: State, s2: State, now: nat)
    requires MessagesOk(ms) && ms.Keys == {1, 2} && Single(ms[2]) && FragmentCount(|ms[1].data|) == 2
    requires Placed(ms, s1) && s1.at == map[A := Thread(0, Looked), B := Thread(0, Marked)] && s1.out == []
    requires s1.slots[0].M == 2 && forall j :: 1 <= j < SLOTS ==> s1.slots[j].M == NO_MESSAGE && Free(s1.slots[j])
    requires Placed(ms, s2) && Moved1(s1, s2, B, Left(Success), 0) && Free(s2.slots[0])
             && s2.out == [] + [Call(2, ms[2])]
    ensures Enabled(ms, s2, Get(A2, now)) && Steals(ms, s2, Get(A2, now))
    ensures var st := Step(ms, s2, Get(A2, now));
            Sound(ms, st) && A in st.at && A2 in st.at && Closed(ms, st.at, 2) && Calls(st.out, 2) == [ms[2]]
  {
    assert Find(s2.slots, 1) == 4 && FirstFree(s2.slots) == 0 && Inside(s2, A, 0);
    GetsFree(ms, s2, A2, now);
    var st := Step(ms, s2, Get(A2, now));
    hide Step;
    SoundAgain(ms, st);
  }

  lemma SoundAgain(ms: Messages, st: State)
    requires MessagesOk(ms) && ms.Keys == {1, 2} && Single(ms[2]) && FragmentCount(|ms[1].data|) == 2
    requires Placed(ms, st)
    requires st.at == map[A := Thread(0, Looked), B := Thread(0, Left(Success)), A2 := Thread(0, Looked)]
    requires st.out == [Call(2, ms[2])] && Free(st.slots[0]) && st.slots[0].M == 1
    requires st.slots[0].length == |ms[1].data| && st.slots[0].need == U32(|ms[1].data|)
    requires forall j :: 1 <= j < SLOTS ==> st.slots[j].M == NO_MESSAGE && Free(st.slots[j])
    ensures Sound(ms, st) && Closed(ms, st.at, 2) && Calls(st.out, 2) == [ms[2]]
  {
    SingleMessage(ms[2]);
    assert Closed(ms, st.at, 2);
    NotLeft(ms, st.at, A);
    assert A == Arrival(1, 0);
    assert Opened(ms, st.at, 1);
    assert Past(st.at, 1, 2) == NoBits() && Past(st.at, 1, 3) == NoBits() && Past(st.at, 1, 4) == NoBits();
    FreshSlotOk(st.slots[0], ms[1]);
    forall X ensures Calls(st.out, X) == if X == 2 then [ms[2]] else [] {
      CallsNext([], Call(2, ms[2]), X);
      assert [] + [Call(2, ms[2])] == st.out;
    }
    hide Past, Calls, Missing, BytesOk;
    assert forall n :: !Finishing(st.at, Arrival(1, n));
    assert !Called(st.at, 1);
    assert Core(ms, st, 1, st.slots[0]);
    assert MessageOk(ms, st, 1, 0);
    hide Core, MessageOk;
    forall j | 0 <= j < SLOTS ensures SlotFine(ms, st, j) {
      assert j > 0 ==> forall a :: !Inside(st, a, j);
    }
    OthersIdle(ms, st);
  }

  lemma OthersIdle(ms: Messages, st: State)
    requires MessagesOk(ms) && ms.Keys == {1, 2} && st.at.Keys == {A, B, A2} && |st.slots| == SLOTS
             && st.slots[0].M == 1
    requires Closed(ms, st.at, 2) && Opened(ms, st.at, 1)
    requires forall X :: Calls(st.out, X) == if X == 2 then [ms[2]] else []
    ensures (forall X :: Opened(ms, st.at, X) ==> Homed(st, X)) && forall X :: CallsFine(ms, st, X)
  {
    assert Homed(st, 1) && B == Arrival(2, 0) && Begun(st.at, 2);
    forall X ensures Closed(ms, st.at, X) ==> X == 2 {
      assert Opened(ms, st.at, 1) && (Closed(ms, st.at, X) ==> X in ms);
    }
    hide Closed, Calls;
    assert forall X :: CallsFine(ms, st, X);
  }
}
