/** `OnData` on several threads: every fragment is handled by a thread of its own, and the steps of
    different threads interleave. The lookup is one step, under the lock; the bit, the bytes, the
    counter, the callback and the clearing of the bits are one step each. */
module Concurrent {
  import opened Words
  import opened Bytes
  import opened Fragments
  import opened Reassembly
  import opened RoundTrip

  /** Where a thread stands in `OnData`: behind the lookup, the bit, the bytes, the counter that ran
      out, the callback; or it has returned. */
  datatype Phase = Looked | Marked | Copied | Complete | Delivered | Left(status: Status)

  function Rank(p: Phase): nat {
    match p
    case Looked => 1
    case Marked => 2
    case Copied => 3
    case Complete => 4
    case Delivered => 5
    case Left(_) => 6
  }

  datatype Thread = Thread(slot: nat, phase: Phase)

  /** A call of `OnUserData`, and the number of the message in whose name it is made. */
  datatype Call = Call(M: nat, m: Message)

  datatype State = State(slots: seq<Slot>, at: map<Arrival, Thread>, out: seq<Call>)

  datatype Event =
    | Get(a: Arrival, now: nat)
    | Mark(a: Arrival)
    | Copy(a: Arrival, now: nat)
    | Subtract(a: Arrival)
    | Deliver(a: Arrival)
    | Clear(a: Arrival)

  predicate Inside(st: State, a: Arrival, i: nat) {
    a in st.at && st.at[a].slot == i && !st.at[a].phase.Left?
  }

  /** Every thread is in a slot or has left. */
  predicate Placed(ms: Messages, st: State) {
    && MessagesOk(ms) && Shaped(st.slots)
    && forall a :: a in st.at ==> ArrivalOk(ms, a) && (st.at[a].phase.Left? || st.at[a].slot < SLOTS)
  }

  predicate Enabled(ms: Messages, st: State, e: Event) {
    match e
    case Get(a, _) => ArrivalOk(ms, a) && a !in st.at
    case Mark(a) => a in st.at && st.at[a].phase == Looked
    case Copy(a, _) => a in st.at && st.at[a].phase == Marked
    case Subtract(a) => a in st.at && st.at[a].phase == Copied
    case Deliver(a) => a in st.at && st.at[a].phase == Complete
    case Clear(a) => a in st.at && st.at[a].phase == Delivered
  }

  function Part(ms: Messages, a: Arrival): (f: Fragment)
    requires MessagesOk(ms) && ArrivalOk(ms, a)
    ensures a.N < MAX_FRAGMENTS && Fits(f) && f.M == a.M && f.N == a.N && f.length == |ms[a.M].data|
    ensures |f.buf| == FragmentLength(|ms[a.M].data|, a.N)
  {
    FragmentOf(ms[a.M], a.M, a.N)
  }

  function Looking(ms: Messages, st: State, a: Arrival, now: nat): State
    requires Placed(ms, st) && ArrivalOk(ms, a)
  {
    var (i, ts) := Got(st.slots, a.M, |ms[a.M].data|, now);
    State(ts, st.at[a := Thread(i, if i == |st.slots| then Left(Success) else Looked)], st.out)
  }

  /** A thread moves on, its slot changed. */
  function Moved(st: State, a: Arrival, s: Slot, p: Phase): State
    requires a in st.at && st.at[a].slot < |st.slots|
  {
    st.(slots := st.slots[st.at[a].slot := s], at := st.at[a := st.at[a].(phase := p)])
  }

  predicate Standing(st: State, a: Arrival) {
    a in st.at && st.at[a].slot < |st.slots| && a.N < MAX_FRAGMENTS
  }

  /** `_interlockedbittestandset64`. */
  function Marking(st: State, a: Arrival): State
    requires Standing(st, a)
  {
    var s := st.slots[st.at[a].slot];
    if s.bits[a.N] then Moved(st, a, s, Left(BadData)) else Moved(st, a, s.(bits := s.bits[a.N := true]), Marked)
  }

  function Copying(st: State, a: Arrival, f: Fragment, now: nat): State
    requires Standing(st, a) && Fits(f) && a.N == f.N && |st.slots[st.at[a].slot].buf| == BUFFER
  {
    var s := st.slots[st.at[a].slot];
    Moved(st, a, s.(buf := Put(s.buf, f.N * MAX_PACKET, f.buf), tick := now), Copied)
  }

  /** `InterlockedExchangeAddNoFence` and the comparison with the old value. */
  function Subtracting(st: State, a: Arrival, cb: nat): State
    requires Standing(st, a)
  {
    var s := st.slots[st.at[a].slot];
    Moved(st, a, s.(need := U32(s.need - cb)), if s.need == U32(cb) then Complete else Left(Success))
  }

  function Delivering(st: State, a: Arrival, f: Fragment): State
    requires Standing(st, a) && f.length <= |st.slots[st.at[a].slot].buf|
  {
    var s := st.slots[st.at[a].slot];
    Moved(st, a, s, Delivered).(out := st.out + [Call(a.M, Message(f.kind, s.buf[..f.length]))])
  }

  function Clearing(st: State, a: Arrival): State
    requires Standing(st, a)
  {
    Moved(st, a, st.slots[st.at[a].slot].(bits := NoBits()), Left(Success))
  }

  function Step(ms: Messages, st: State, e: Event): (st': State)
    requires Placed(ms, st) && Enabled(ms, st, e)
    ensures Placed(ms, st')
  {
    match e
    case Get(a, now) => Looking(ms, st, a, now)
    case Mark(a) => Marking(st, a)
    case Copy(a, now) => Copying(st, a, Part(ms, a), now)
    case Subtract(a) => Subtracting(st, a, |Part(ms, a).buf|)
    case Deliver(a) => Delivering(st, a, Part(ms, a))
    case Clear(a) => Clearing(st, a)
  }

  /** An event sequence as a run; None if some event is not enabled. */
  function Run(ms: Messages, st: State, es: seq<Event>): (r: Option<State>)
    requires Placed(ms, st)
    ensures r.Some? ==> Placed(ms, r.value)
  {
    if es == [] then Some(st)
    else
      var n := |es| - 1;
      var r := Run(ms, st, es[..n]);
      if r.Some? && Enabled(ms, r.value, es[n]) then Some(Step(ms, r.value, es[n])) else None
  }

  function Initial(ss: seq<Slot>): State {
    State(Reset(ss), map[], [])
  }

  /** Fragments of M whose thread has come at least to this rank. */
  function Past(at: map<Arrival, Thread>, M: nat, rank: nat): (b: Bits) {
    seq(MAX_FRAGMENTS, n requires 0 <= n < MAX_FRAGMENTS => Arrival(M, n) in at
        && Rank(at[Arrival(M, n)].phase) >= rank)
  }

  /** All fragments of M have come and their threads have left. */
  predicate Closed(ms: Messages, at: map<Arrival, Thread>, M: nat) {
    M in ms && forall n :: 0 <= n < FragmentCount(|ms[M].data|) ==> Arrival(M, n) in at && at[Arrival(M, n)].phase.Left?
  }

  ghost predicate Begun(at: map<Arrival, Thread>, M: nat) {
    exists n :: Arrival(M, n) in at
  }

  ghost predicate Opened(ms: Messages, at: map<Arrival, Thread>, M: nat) {
    M in ms && Begun(at, M) && !Closed(ms, at, M)
  }

  ghost function OpenSet(ms: Messages, at: map<Arrival, Thread>): set<nat> {
    set M | M in ms && Opened(ms, at, M)
  }

  /** A lookup that gives a slot to a message anew. */
  predicate Assigns(ms: Messages, st: State, e: Event) {
    && e.Get? && ArrivalOk(ms, e.a)
    && Choose(st.slots, e.a.M, |ms[e.a.M].data|, e.now).1
  }

  /** A lookup takes a slot in which some thread still stands. */
  ghost predicate Steals(ms: Messages, st: State, e: Event) {
    && Assigns(ms, st, e)
    && exists b :: Inside(st, b, Choose(st.slots, e.a.M, |ms[e.a.M].data|, e.now).0)
  }

  /** At a lookup at most four messages are open, its own included. */
  ghost predicate HasRoom(ms: Messages, st: State, e: Event) {
    e.Get? ==> |OpenSet(ms, st.at) + {e.a.M}| <= SLOTS
  }

  /** The calls made in the name of M. */
  function Calls(out: seq<Call>, M: nat): seq<Message> {
    if out == [] then []
    else Calls(out[..|out| - 1], M) + if out[|out| - 1].M == M then [out[|out| - 1].m] else []
  }

  // ---- One thread alone --------------------------------------------------------------

  /** What a thread does behind its lookup, nobody interfering. */
  function Storing(st: State, a: Arrival, f: Fragment, now: nat): State
    requires Standing(st, a) && Fits(f) && f.N == a.N && Shaped(st.slots)
  {
    var s1 := Marking(st, a);
    if s1.at[a].phase.Left? then s1
    else
      var s3 := Subtracting(Copying(s1, a, f, now), a, |f.buf|);
      if s3.at[a].phase.Left? then s3 else Clearing(Delivering(s3, a, f), a)
  }

  /** And from its lookup to its return. */
  function Alone(ms: Messages, st: State, a: Arrival, now: nat): State
    requires Placed(ms, st) && ArrivalOk(ms, a) && a !in st.at
  {
    var s := Looking(ms, st, a, now);
    if s.at[a].phase.Left? then s else Storing(s, a, Part(ms, a), now)
  }

  lemma MovedAgain(st: State, a: Arrival, s: Slot, p: Phase, s': Slot, p': Phase)
    requires a in st.at && st.at[a].slot < |st.slots|
    ensures var m := Moved(st, a, s, p);
            && a in m.at && m.at[a] == Thread(st.at[a].slot, p) && m.slots[st.at[a].slot] == s && m.out == st.out
            && |m.slots| == |st.slots|
            && Moved(m, a, s', p') == Moved(st, a, s', p')
  {
    var i := st.at[a].slot;
    assert st.slots[i := s][i := s'] == st.slots[i := s'];
    assert st.at[a := Thread(i, p)][a := Thread(i, p')] == st.at[a := Thread(i, p')];
  }

  lemma MovedOut(st: State, a: Arrival, s: Slot, p: Phase, s': Slot, out: seq<Call>)
    requires a in st.at && st.at[a].slot < |st.slots|
    ensures var m := Moved(st, a, s, p).(out := out);
            && a in m.at && m.at[a] == Thread(st.at[a].slot, p) && m.slots[st.at[a].slot] == s
            && |m.slots| == |st.slots|
            && Moved(m, a, s', Left(Success)) == Moved(st, a, s', Left(Success)).(out := out)
  {
    MovedAgain(st, a, s, p, s', Left(Success));
  }

  lemma AloneStores(st: State, a: Arrival, f: Fragment, now: nat)
    requires Standing(st, a) && Fits(f) && f.N == a.N && |st.slots[st.at[a].slot].buf| == BUFFER
    requires !st.slots[st.at[a].slot].bits[a.N]
    ensures var i, s0 := st.at[a].slot, st.slots[st.at[a].slot];
            var s3 := s0.(bits := s0.bits[a.N := true], buf := Put(s0.buf, f.N * MAX_PACKET, f.buf), tick := now,
                          need := U32(s0.need - |f.buf|));
            var m1 := Marking(st, a);
            && Standing(m1, a) && m1.at[a].phase == Marked && |m1.slots[m1.at[a].slot].buf| == BUFFER
            && var m2 := Copying(m1, a, f, now);
               && Standing(m2, a) && m2.at[a].phase == Copied
               && Subtracting(m2, a, |f.buf|) == Moved(st, a, s3, if s0.need == U32(|f.buf|) then Complete
                   else Left(Success))
  {
    var i, s0, cb := st.at[a].slot, st.slots[st.at[a].slot], |f.buf|;
    var s1 := s0.(bits := s0.bits[a.N := true]);
    var s2 := s1.(buf := Put(s1.buf, f.N * MAX_PACKET, f.buf), tick := now);
    var s3 := s2.(need := U32(s2.need - cb));
    var p := if s2.need == U32(cb) then Complete else Left(Success);
    hide Moved, Put, U32;
    MovedAgain(st, a, s1, Marked, s2, Copied);
    MovedAgain(st, a, s2, Copied, s3, p);
  }

  lemma AloneDelivers(st: State, a: Arrival, f: Fragment, s: Slot)
    requires Standing(st, a) && f.length <= |s.buf|
    ensures var m := Moved(st, a, s, Complete);
            && Standing(m, a) && f.length <= |m.slots[m.at[a].slot].buf|
            && Standing(Delivering(m, a, f), a)
            && Clearing(Delivering(m, a, f), a) ==
               Moved(st, a, s.(bits := NoBits()), Left(Success)).(out := st.out
                   + [Call(a.M, Message(f.kind, s.buf[..f.length]))])
  {
    hide Moved, NoBits;
    MovedAgain(st, a, s, Complete, s, Delivered);
    MovedOut(st, a, s, Delivered, s.(bits := NoBits()), st.out + [Call(a.M, Message(f.kind, s.buf[..f.length]))]);
  }

  lemma StoringIs(st: State, a: Arrival, f: Fragment, now: nat)
    requires Standing(st, a) && Fits(f) && f.N == a.N && Shaped(st.slots)
    ensures var s0 := st.slots[st.at[a].slot];
            var (s, done) := Filled(s0, f, now);
            Storing(st, a, f, now) ==
            if s0.bits[a.N] then Moved(st, a, s0, Left(BadData))
            else if !done then Moved(st, a, s, Left(Success))
            else Moved(st, a, s, Left(Success)).(out := st.out + [Call(a.M, Message(f.kind, s.buf[..f.length]))])
  {
    NoBitsContiguous();
    var s0 := st.slots[st.at[a].slot];
    if s0.bits[a.N] {
      hide Contiguous, Put, U32, Copying, Subtracting, Delivering, Clearing, Filled;
    } else {
      var s3 := s0.(bits := s0.bits[a.N := true], buf := Put(s0.buf, f.N * MAX_PACKET, f.buf), tick := now,
                    need := U32(s0.need - |f.buf|));
      hide Contiguous, Put, U32, Marking, Copying, Subtracting, Delivering, Clearing, Moved;
      AloneStores(st, a, f, now);
      AloneDelivers(st, a, f, s3);
      MovedAgain(st, a, s3, if s0.need == U32(|f.buf|) then Complete else Left(Success), s3, Delivered);
    }
  }

  /** It is `OnData` as one step. */
  lemma AloneIsOnData(ms: Messages, st: State, a: Arrival, now: nat)
    requires Placed(ms, st) && ArrivalOk(ms, a) && a !in st.at
    ensures var r, (ss, status, d) := Alone(ms, st, a, now), OnData(st.slots, Part(ms, a), now);
            && r.slots == ss && a in r.at && r.at[a].phase == Left(status)
            && r.out == st.out + (if d.Some? then [Call(a.M, d.value)] else [])
  {
    var s, f := Looking(ms, st, a, now), Part(ms, a);
    hide Got, Filled, Part, Storing;
    if s.at[a].phase == Looked {
      var i := s.at[a].slot;
      assert s.slots[i := s.slots[i]] == s.slots;
      StoringIs(s, a, f, now);
    }
  }
}
