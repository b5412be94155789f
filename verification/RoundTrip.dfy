/** Fragment / reassemble round trip: for every set of messages, every arrival order, fragments of
    unfinished messages repeated at will, and every interleaving of at most four incomplete
    messages, each message is delivered exactly when its last fragment arrives, with its bytes. */
module RoundTrip {
  import opened Words
  import opened Bytes
  import opened Fragments
  import opened Reassembly

  /** The messages of a session by number, and an arrival: which fragment came. */
  type Messages = map<nat, Message>

  datatype Arrival = Arrival(M: nat, N: nat)

  predicate MessagesOk(ms: Messages) {
    forall M :: M in ms ==> M < 0x10000 && 0 < |ms[M].data| && Sendable(ms[M])
  }

  predicate ArrivalOk(ms: Messages, a: Arrival) {
    a.M in ms && a.N < FragmentCount(|ms[a.M].data|)
  }

  /** The fragments of M that have arrived, as a bitmap. */
  function Arrived(arr: seq<Arrival>, M: nat): (b: Bits) {
    seq(MAX_FRAGMENTS, i requires 0 <= i < MAX_FRAGMENTS => Arrival(M, i) in arr)
  }

  predicate Complete(ms: Messages, arr: seq<Arrival>, M: nat) {
    M in ms && forall i :: 0 <= i < FragmentCount(|ms[M].data|) ==> Arrival(M, i) in arr
  }

  ghost predicate Incomplete(ms: Messages, arr: seq<Arrival>, M: nat) {
    M in ms && !Complete(ms, arr, M) && exists i :: Arrival(M, i) in arr
  }

  ghost function IncompleteSet(ms: Messages, arr: seq<Arrival>): set<nat> {
    set M | M in ms && Incomplete(ms, arr, M)
  }

  predicate ArrivalsOk(ms: Messages, arr: seq<Arrival>) {
    forall i :: 0 <= i < |arr| ==> ArrivalOk(ms, arr[i])
  }

  /** Fragments come again at most while their message is unfinished. */
  predicate RepeatsEarly(ms: Messages, arr: seq<Arrival>) {
    forall i :: 0 <= i < |arr| && arr[i] in arr[..i] ==> !Complete(ms, arr[..i], arr[i].M)
  }

  /** At no time more than four messages are incomplete, the arriving one included. */
  ghost predicate Room(ms: Messages, arr: seq<Arrival>) {
    forall i :: 0 <= i < |arr| ==> |IncompleteSet(ms, arr[..i]) + {arr[i].M}| <= SLOTS
  }

  ghost predicate Session(ms: Messages, arr: seq<Arrival>) {
    && MessagesOk(ms) && RepeatsEarly(ms, arr) && Room(ms, arr)
    && ArrivalsOk(ms, arr)
  }

  /** What must be delivered: each message when its last missing fragment arrives. */
  function Expected(ms: Messages, arr: seq<Arrival>): seq<Message> {
    if arr == [] then []
    else
      var M := arr[|arr| - 1].M;
      Expected(ms, arr[..|arr| - 1]) + if Complete(ms, arr, M) then [ms[M]] else []
  }

  /** One arrival at the receiver. */
  function Arrive(ms: Messages, ss: seq<Slot>, a: Arrival, now: nat): (r: (seq<Slot>, Status, Option<Message>))
    requires Shaped(ss) && MessagesOk(ms) && ArrivalOk(ms, a)
    ensures Shaped(r.0)
  {
    OnData(ss, FragmentOf(ms[a.M], a.M, a.N), now)
  }

  /** The slots, the deliveries, and the status of every call. */
  datatype Received = Received(slots: seq<Slot>, out: seq<Message>, statuses: seq<Status>)

  function Next(ms: Messages, r: Received, a: Arrival, now: nat): (r': Received)
    requires Shaped(r.slots) && MessagesOk(ms) && ArrivalOk(ms, a)
    ensures Shaped(r'.slots)
  {
    var (ss, status, d) := Arrive(ms, r.slots, a, now);
    Received(ss, r.out + (if d.Some? then [d.value] else []), r.statuses + [status])
  }

  /** The receiver fed with the arrivals, at arbitrary clock readings. */
  function Receive(ms: Messages, ss: seq<Slot>, arr: seq<Arrival>, nows: seq<nat>): (r: Received)
    requires Shaped(ss) && MessagesOk(ms) && |nows| == |arr| && ArrivalsOk(ms, arr)
    ensures Shaped(r.slots)
  {
    if arr == [] then Received(ss, [], [])
    else
      var n := |arr| - 1;
      Next(ms, Receive(ms, ss, arr[..n], nows[..n]), arr[n], nows[n])
  }

  // ---- Invariant of the slots --------------------------------------------------------

  predicate BytesOk(buf: seq<Byte>, m: Message, b: Bits)
    requires |buf| == BUFFER && Sendable(m)
  {
    forall p :: 0 <= p < |m.data| && b[p / MAX_PACKET] ==> buf[p] == m.data[p]
  }

  /** A slot in use holds the arrived fragments of its message and counts the missing bytes. */
  predicate SlotOk(s: Slot, m: Message, b: Bits) {
    && Sendable(m) && |s.buf| == BUFFER && s.bits == b && s.length == |m.data|
    && s.need == Missing(|m.data|, b, FragmentCount(|m.data|))
    && BytesOk(s.buf, m, b)
  }

  ghost predicate SlotInv(ms: Messages, arr: seq<Arrival>, s: Slot) {
    if Free(s) then s.M == NO_MESSAGE || Complete(ms, arr, s.M)
    else s.M in ms && !Complete(ms, arr, s.M) && SlotOk(s, ms[s.M], Arrived(arr, s.M))
  }

  predicate DistinctSlots(ss: seq<Slot>) {
    forall i, j :: 0 <= i < j < |ss| && ss[i].M == ss[j].M ==> ss[i].M == NO_MESSAGE
  }

  ghost predicate Inv(ms: Messages, arr: seq<Arrival>, ss: seq<Slot>) {
    && MessagesOk(ms) && Shaped(ss) && DistinctSlots(ss)
    && (forall i :: 0 <= i < |ss| ==> SlotInv(ms, arr, ss[i]))
    && (forall M :: Incomplete(ms, arr, M) ==> exists i :: 0 <= i < |ss| && ss[i].M == M && !Free(ss[i]))
  }

  lemma ResetInv(ms: Messages, ss: seq<Slot>)
    requires MessagesOk(ms) && Shaped(ss)
    ensures Inv(ms, [], Reset(ss))
  {
  }

  /** One new arrival touches only its own message. */
  lemma ArrivalFrame(ms: Messages, arr: seq<Arrival>, a: Arrival, M: nat)
    ensures M != a.M ==> Arrived(arr + [a], M) == Arrived(arr, M)
    ensures M != a.M ==> (Complete(ms, arr + [a], M) <==> Complete(ms, arr, M))
    ensures M != a.M ==> (Incomplete(ms, arr + [a], M) <==> Incomplete(ms, arr, M))
    ensures a.N < MAX_FRAGMENTS ==> Arrived(arr + [a], a.M) == Arrived(arr, a.M)[a.N := true]
    ensures Complete(ms, arr, M) ==> Complete(ms, arr + [a], M)
  {
    forall x ensures x in arr + [a] <==> x in arr || x == a {}
  }

  lemma SomeBit(b: Bits)
    ensures b == NoBits() || exists i :: 0 <= i < MAX_FRAGMENTS && b[i]
  {
    if forall i :: 0 <= i < MAX_FRAGMENTS ==> !b[i] {
      assert b == NoBits();
    }
  }

  lemma InUse(ms: Messages, arr: seq<Arrival>, s: Slot)
    requires SlotInv(ms, arr, s)
    ensures Free(s) || Incomplete(ms, arr, s.M)
  {
    SomeBit(s.bits);
  }

  lemma Subset(a: set<nat>, b: set<nat>)
    requires a <= b
    ensures |a| <= |b|
  {
    assert b == a + (b - a);
  }

  /** Four slots in use are four incomplete messages. */
  lemma AllUsed(ms: Messages, arr: seq<Arrival>, ss: seq<Slot>)
    requires Inv(ms, arr, ss) && forall i :: 0 <= i < |ss| ==> !Free(ss[i])
    ensures |IncompleteSet(ms, arr)| >= 4
  {
    hide Complete, SlotOk, Arrived;
    forall i | 0 <= i < SLOTS ensures ss[i].M in IncompleteSet(ms, arr) && ss[i].M != NO_MESSAGE {
      assert SlotInv(ms, arr, ss[i]);
      InUse(ms, arr, ss[i]);
    }
    var four := {ss[0].M, ss[1].M, ss[2].M, ss[3].M};
    hide *;
    assert |four| == 4;
    Subset(four, IncompleteSet(ms, arr));
  }

  lemma FreeSlotExists(ms: Messages, arr: seq<Arrival>, ss: seq<Slot>, M: nat)
    requires Inv(ms, arr, ss) && !Incomplete(ms, arr, M)
    requires |IncompleteSet(ms, arr) + {M}| <= SLOTS
    ensures FirstFree(ss) < |ss|
  {
    assert M !in IncompleteSet(ms, arr);
    assert |IncompleteSet(ms, arr) + {M}| == |IncompleteSet(ms, arr)| + 1;
    hide IncompleteSet, SlotInv;
    if forall i :: 0 <= i < |ss| ==> !Free(ss[i]) {
      AllUsed(ms, arr, ss);
    }
  }

  // ---- Filling a slot ----------------------------------------------------------------

  lemma NoBitsContiguous()
    ensures Contiguous(NoBits())
  {
    IncrementBlock(NoBits(), 0);
  }

  /** The fragment that holds a byte. */
  lemma Position(length: nat, n: nat, p: nat)
    requires n < FragmentCount(length) && p < length
    ensures p / MAX_PACKET == n <==> n * MAX_PACKET <= p < n * MAX_PACKET + FragmentLength(length, n)
    ensures p / MAX_PACKET < FragmentCount(length)
  {
  }

  lemma PatchBytes(buf: seq<Byte>, m: Message, b: Bits, M: nat, n: nat)
    requires |buf| == BUFFER && Sendable(m) && BytesOk(buf, m, b) && n < FragmentCount(|m.data|)
    ensures BytesOk(Put(buf, n * MAX_PACKET, FragmentOf(m, M, n).buf), m, b[n := true])
  {
    var from, bytes := n * MAX_PACKET, FragmentOf(m, M, n).buf;
    var buf' := Put(buf, from, bytes);
    forall p | 0 <= p < |m.data| && b[n := true][p / MAX_PACKET] ensures buf'[p] == m.data[p] {
      Position(|m.data|, n, p);
      if p / MAX_PACKET == n {
        assert buf'[p] == bytes[p - from];
      } else {
        assert buf'[p] == buf[p];
      }
    }
  }

  predicate AllSet(b: Bits, k: nat)
    requires k <= MAX_FRAGMENTS
  {
    forall i :: 0 <= i < k ==> b[i]
  }

  /** The counter runs out exactly with the last missing fragment. */
  lemma CounterExact(m: Message, b: Bits, n: nat)
    requires Sendable(m) && 0 < |m.data| && n < FragmentCount(|m.data|) && !b[n]
    ensures var k, b' := FragmentCount(|m.data|), b[n := true];
            var need, len := Missing(|m.data|, b, k), FragmentLength(|m.data|, n);
            && 0 < len <= need < ULONG_RANGE
            && U32(need - len) == Missing(|m.data|, b', k)
            && (need == U32(len) <==> AllSet(b', k))
  {
    var k := FragmentCount(|m.data|);
    MissingSet(|m.data|, b, n, k);
    MissingZero(|m.data|, b, k);
    MissingZero(|m.data|, b[n := true], k);
  }

  /** So the counter alone implies the contiguity test the code evidently means: it runs out
      exactly when the bitmap is 2^k - 1, also for k = 64. */
  lemma CounterIsBitmap(m: Message, b: Bits, n: nat)
    requires Sendable(m) && 0 < |m.data| && n < FragmentCount(|m.data|) && !b[n]
    requires forall i :: FragmentCount(|m.data|) <= i < MAX_FRAGMENTS ==> !b[i]
    ensures var k, b' := FragmentCount(|m.data|), b[n := true];
            && (Missing(|m.data|, b, k) == FragmentLength(|m.data|, n) <==> b' == Ones(k))
            && (b' == Ones(k) ==> Contiguous(b'))
  {
    var k, b' := FragmentCount(|m.data|), b[n := true];
    CounterExact(m, b, n);
    if AllSet(b', k) {
      assert b' == Ones(k);
    }
    ContiguousIsOnes(b');
    hide Missing, Contiguous;
  }

  lemma AllBytes(buf: seq<Byte>, m: Message, b: Bits)
    requires |buf| == BUFFER && Sendable(m) && BytesOk(buf, m, b) && AllSet(b, FragmentCount(|m.data|))
    ensures buf[..|m.data|] == m.data
  {
    forall p | 0 <= p < |m.data| ensures buf[p] == m.data[p] {
      Position(|m.data|, 0, p);
    }
  }

  lemma FillOk(s: Slot, m: Message, b: Bits, M: nat, n: nat, now: nat)
    requires SlotOk(s, m, b) && 0 < |m.data| && n < FragmentCount(|m.data|) && !b[n]
    ensures var (s', done) := Filled(s, FragmentOf(m, M, n), now);
            && s'.M == s.M
            && (done <==> AllSet(b[n := true], FragmentCount(|m.data|)))
            && (done ==> Free(s') && |s'.buf| == BUFFER && s'.buf[..|m.data|] == m.data)
            && (!done ==> !Free(s') && SlotOk(s', m, b[n := true]))
  {
    NoBitsContiguous();
    CounterExact(m, b, n);
    PatchBytes(s.buf, m, b, M, n);
    hide Missing, Contiguous, BytesOk, Put;
    var (s', done) := Filled(s, FragmentOf(m, M, n), now);
    if done {
      AllBytes(s'.buf, m, b[n := true]);
    } else {
      assert s'.bits[n];
    }
  }

  // ---- Choosing a slot ---------------------------------------------------------------

  /** An empty slot fits a message none of whose fragments arrived. */
  lemma FreshSlotOk(s: Slot, m: Message)
    requires Sendable(m) && |s.buf| == BUFFER && Free(s) && s.length == |m.data| && s.need == U32(|m.data|)
    ensures SlotOk(s, m, NoBits())
  {
    MissingAll(|m.data|, NoBits(), FragmentCount(|m.data|));
    hide Missing;
  }

  /** A message none of whose fragments arrived has no slot. */
  lemma NewMessage(ms: Messages, arr: seq<Arrival>, ss: seq<Slot>, a: Arrival)
    requires Inv(ms, arr, ss) && ArrivalOk(ms, a) && a !in arr && !Incomplete(ms, arr, a.M)
    ensures forall i :: 0 <= i < |ss| ==> ss[i].M != a.M
    ensures Arrived(arr, a.M) == NoBits()
  {
    assert !Complete(ms, arr, a.M);
    assert forall i :: Arrival(a.M, i) !in arr;
    forall i | 0 <= i < |ss| ensures ss[i].M != a.M {
      assert SlotInv(ms, arr, ss[i]);
      InUse(ms, arr, ss[i]);
    }
  }

  /** What `get` must do for a fragment of m: the slot i it leaves assigned to m. */
  predicate GetsSlot(ss: seq<Slot>, r: (nat, seq<Slot>), m: Message, M: nat, b: Bits) {
    var (i, ts) := r;
    && i < |ss| == |ts| && ts == ss[i := ts[i]] && ts[i].M == M && SlotOk(ts[i], m, b)
    && (ss[i].M == M || Free(ss[i]))
    && (forall j :: 0 <= j < |ss| && j != i ==> ss[j].M != M)
  }

  lemma GetKnown(ss: seq<Slot>, i: nat, m: Message, M: nat, b: Bits, now: nat)
    requires i < |ss| && DistinctSlots(ss) && ss[i].M == M < NO_MESSAGE && SlotOk(ss[i], m, b)
    ensures GetsSlot(ss, Got(ss, M, |m.data|, now), m, M, b)
  {
    assert ss[i].length == |m.data|;
    hide SlotOk;
    assert Find(ss, M) == i;
    assert ss == ss[i := ss[i]];
  }

  lemma GetNew(ss: seq<Slot>, m: Message, M: nat, now: nat)
    requires Sendable(m) && Shaped(ss) && FirstFree(ss) < |ss|
    requires forall j :: 0 <= j < |ss| ==> ss[j].M != M
    ensures GetsSlot(ss, Got(ss, M, |m.data|, now), m, M, NoBits())
  {
    var j := FirstFree(ss);
    FreshSlotOk(ss[j].(length := |m.data|, need := U32(|m.data|), M := M), m);
    hide SlotOk;
    assert Find(ss, M) == |ss|;
  }

  lemma GetOk(ms: Messages, arr: seq<Arrival>, ss: seq<Slot>, a: Arrival, now: nat)
    requires Inv(ms, arr, ss) && ArrivalOk(ms, a) && a !in arr
    requires |IncompleteSet(ms, arr) + {a.M}| <= SLOTS
    ensures GetsSlot(ss, Got(ss, a.M, |ms[a.M].data|, now), ms[a.M], a.M, Arrived(arr, a.M))
  {
    if Incomplete(ms, arr, a.M) {
      var i :| 0 <= i < |ss| && ss[i].M == a.M && !Free(ss[i]);
      assert SlotInv(ms, arr, ss[i]);
      GetKnown(ss, i, ms[a.M], a.M, Arrived(arr, a.M), now);
    } else {
      FreeSlotExists(ms, arr, ss, a.M);
      NewMessage(ms, arr, ss, a);
      GetNew(ss, ms[a.M], a.M, now);
    }
  }

  // ---- One arrival -------------------------------------------------------------------

  lemma OthersKept(ms: Messages, arr: seq<Arrival>, ss: seq<Slot>, a: Arrival, j: nat)
    requires j < |ss| && ss[j].M != a.M && SlotInv(ms, arr, ss[j])
    ensures SlotInv(ms, arr + [a], ss[j])
  {
    ArrivalFrame(ms, arr, a, ss[j].M);
    hide Arrived, Complete, SlotOk;
  }

  /** The slots after the arrival, given the slot i it went to. */
  lemma ArrivalInv(ms: Messages, arr: seq<Arrival>, ss: seq<Slot>, a: Arrival, i: nat, s: Slot)
    requires Inv(ms, arr, ss) && i < |ss| && s.M == a.M && |s.buf| == BUFFER
    requires ss[i].M == a.M || Free(ss[i])
    requires forall j :: 0 <= j < |ss| && j != i ==> ss[j].M != a.M
    requires SlotInv(ms, arr + [a], s)
    requires Free(s) ==> Complete(ms, arr + [a], a.M)
    ensures Inv(ms, arr + [a], ss[i := s])
  {
    var ts := ss[i := s];
    forall j | 0 <= j < |ts| ensures SlotInv(ms, arr + [a], ts[j]) {
      if j != i { OthersKept(ms, arr, ss, a, j); }
    }
    forall M | Incomplete(ms, arr + [a], M) ensures exists j :: 0 <= j < |ts| && ts[j].M == M && !Free(ts[j]) {
      if M == a.M {
        assert ts[i].M == M && !Free(ts[i]);
      } else {
        ArrivalFrame(ms, arr, a, M);
        var j :| 0 <= j < |ss| && ss[j].M == M && !Free(ss[j]);
        assert ts[j].M == M && !Free(ts[j]);
      }
    }
    hide SlotInv, Incomplete;
  }

  /** What the arrival of `a` must deliver. */
  function Due(ms: Messages, arr: seq<Arrival>, a: Arrival): Option<Message> {
    if Complete(ms, arr + [a], a.M) then Some(ms[a.M]) else None
  }

  /** `OnData` with a fragment of m that its slot i still lacks. */
  lemma DataStep(ss: seq<Slot>, m: Message, M: nat, n: nat, b: Bits, now: nat)
    requires Shaped(ss) && Sendable(m) && 0 < |m.data| && n < FragmentCount(|m.data|) && !b[n]
    requires GetsSlot(ss, Got(ss, M, |m.data|, now), m, M, b)
    ensures var (ts, status, d) := OnData(ss, FragmentOf(m, M, n), now);
            var i, b' := Got(ss, M, |m.data|, now).0, b[n := true];
            var all := AllSet(b', FragmentCount(|m.data|));
            && status == Success && d == (if all then Some(m) else None)
            && ts == ss[i := ts[i]] && ts[i].M == M
            && (if all then Free(ts[i]) else !Free(ts[i]) && SlotOk(ts[i], m, b'))
  {
    var (i, gs) := Got(ss, M, |m.data|, now);
    FillOk(gs[i], m, b, M, n, now);
    assert gs[i].bits == b;
    var (s, done) := Filled(gs[i], FragmentOf(m, M, n), now);
    assert gs[i := s] == ss[i := s];
    assert Message(m.kind, m.data) == m;
    hide SlotOk, Filled, Got, AllSet;
  }

  lemma ArrivedBits(ms: Messages, arr: seq<Arrival>, a: Arrival)
    requires MessagesOk(ms) && ArrivalOk(ms, a) && a !in arr
    ensures var b := Arrived(arr, a.M);
            !b[a.N] && Arrived(arr + [a], a.M) == b[a.N := true]
    ensures AllSet(Arrived(arr + [a], a.M), FragmentCount(|ms[a.M].data|)) <==> Complete(ms, arr + [a], a.M)
  {
    ArrivalFrame(ms, arr, a, a.M);
    assert a == Arrival(a.M, a.N);
    var b' := Arrived(arr + [a], a.M);
    assert forall i :: 0 <= i < MAX_FRAGMENTS ==> b'[i] == (Arrival(a.M, i) in arr + [a]);
  }

  lemma ArrivalStep(ms: Messages, arr: seq<Arrival>, ss: seq<Slot>, a: Arrival, now: nat)
    requires Inv(ms, arr, ss) && ArrivalOk(ms, a) && a !in arr
    requires |IncompleteSet(ms, arr) + {a.M}| <= SLOTS
    ensures var (ts, status, d) := Arrive(ms, ss, a, now);
            Inv(ms, arr + [a], ts) && status == Success && d == Due(ms, arr, a)
  {
    var m, b := ms[a.M], Arrived(arr, a.M);
    GetOk(ms, arr, ss, a, now);
    ArrivedBits(ms, arr, a);
    DataStep(ss, m, a.M, a.N, b, now);
    var (ts, status, d) := OnData(ss, FragmentOf(m, a.M, a.N), now);
    var i := Got(ss, a.M, |m.data|, now).0;
    hide Complete, Arrived, SlotOk, OnData, Got, IncompleteSet, Incomplete, AllSet, DistinctSlots;
    ArrivalInv(ms, arr, ss, a, i, ts[i]);
    assert ts == ss[i := ts[i]];
    assert Inv(ms, arr + [a], ts);
    assert Arrive(ms, ss, a, now) == (ts, status, d);
  }

  // ---- Fragments that come again -----------------------------------------------------

  /** A duplicate before completion is refused and changes nothing. */
  lemma DuplicateRefused(ms: Messages, arr: seq<Arrival>, ss: seq<Slot>, a: Arrival, now: nat)
    requires Inv(ms, arr, ss) && ArrivalOk(ms, a) && a in arr && !Complete(ms, arr, a.M)
    ensures Arrive(ms, ss, a, now) == (ss, BadData, None)
  {
    assert a == Arrival(a.M, a.N);
    assert Incomplete(ms, arr, a.M);
    var i :| 0 <= i < |ss| && ss[i].M == a.M && !Free(ss[i]);
    assert SlotInv(ms, arr, ss[i]);
    assert ss[i].length == |ms[a.M].data| && ss[i].bits == Arrived(arr, a.M);
    assert Arrived(arr, a.M)[a.N];
    hide Inv, Complete, Incomplete, Arrived, Missing;
    assert Find(ss, a.M) == i;
  }

  lemma RepeatFrame(ms: Messages, arr: seq<Arrival>, a: Arrival, M: nat)
    requires a in arr
    ensures Arrived(arr + [a], M) == Arrived(arr, M)
    ensures Complete(ms, arr + [a], M) <==> Complete(ms, arr, M)
    ensures Incomplete(ms, arr + [a], M) <==> Incomplete(ms, arr, M)
  {
    forall x ensures x in arr + [a] <==> x in arr {}
  }

  lemma RepeatInv(ms: Messages, arr: seq<Arrival>, ss: seq<Slot>, a: Arrival)
    requires Inv(ms, arr, ss) && a in arr
    ensures Inv(ms, arr + [a], ss)
  {
    hide Complete, Incomplete, Arrived, SlotOk;
    forall M ensures Incomplete(ms, arr + [a], M) <==> Incomplete(ms, arr, M) {
      RepeatFrame(ms, arr, a, M);
    }
    forall i | 0 <= i < |ss| ensures SlotInv(ms, arr + [a], ss[i]) {
      RepeatFrame(ms, arr, a, ss[i].M);
    }
  }

  // ---- Whole sessions ----------------------------------------------------------------

  lemma SessionPrefix(ms: Messages, arr: seq<Arrival>, n: nat)
    requires Session(ms, arr) && n < |arr|
    ensures Session(ms, arr[..n]) && ArrivalOk(ms, arr[n])
    ensures arr[n] in arr[..n] ==> !Complete(ms, arr[..n], arr[n].M)
    ensures |IncompleteSet(ms, arr[..n]) + {arr[n].M}| <= SLOTS
  {
    hide MessagesOk, ArrivalOk, IncompleteSet, Complete;
    forall i | 0 <= i < n ensures arr[..n][..i] == arr[..i] {}
  }

  /** New fragments are accepted, repeated ones are refused. */
  predicate StatusesOk(arr: seq<Arrival>, statuses: seq<Status>) {
    |statuses| == |arr| && forall i :: 0 <= i < |arr| ==> statuses[i] == if arr[i] in arr[..i] then BadData else Success
  }

  ghost predicate Delivers(ms: Messages, arr: seq<Arrival>, r: Received) {
    Inv(ms, arr, r.slots) && StatusesOk(arr, r.statuses) && r.out == Expected(ms, arr)
  }

  lemma StatusesNext(arr: seq<Arrival>, statuses: seq<Status>, a: Arrival, status: Status)
    requires StatusesOk(arr, statuses) && status == if a in arr then BadData else Success
    ensures StatusesOk(arr + [a], statuses + [status])
  {
    forall i | 0 <= i <= |arr|
      ensures (statuses + [status])[i] == if (arr + [a])[i] in (arr + [a])[..i] then BadData else Success
    {
      assert (arr + [a])[..i] == arr[..i];
    }
  }

  /** One arrival of a session, new or repeated. */
  lemma AnyStep(ms: Messages, arr: seq<Arrival>, ss: seq<Slot>, a: Arrival, now: nat)
    requires Inv(ms, arr, ss) && ArrivalOk(ms, a) && (a in arr ==> !Complete(ms, arr, a.M))
    requires |IncompleteSet(ms, arr) + {a.M}| <= SLOTS
    ensures var (ts, status, d) := Arrive(ms, ss, a, now);
            Inv(ms, arr + [a], ts) && status == (if a in arr then BadData else Success) && d == Due(ms, arr, a)
  {
    hide Inv, IncompleteSet, Arrive, Complete;
    if a in arr {
      DuplicateRefused(ms, arr, ss, a, now);
      RepeatInv(ms, arr, ss, a);
      RepeatFrame(ms, arr, a, a.M);
    } else {
      ArrivalStep(ms, arr, ss, a, now);
    }
  }

  lemma ExpectedNext(ms: Messages, arr: seq<Arrival>, a: Arrival)
    ensures var d := Due(ms, arr, a);
            Expected(ms, arr + [a]) == Expected(ms, arr) + if d.Some? then [d.value] else []
  {
    assert (arr + [a])[..|arr + [a]| - 1] == arr;
    hide Complete;
  }

  lemma NextDelivers(ms: Messages, arr: seq<Arrival>, r: Received, a: Arrival, now: nat)
    requires Delivers(ms, arr, r) && ArrivalOk(ms, a) && (a in arr ==> !Complete(ms, arr, a.M))
    requires |IncompleteSet(ms, arr) + {a.M}| <= SLOTS
    ensures Delivers(ms, arr + [a], Next(ms, r, a, now))
  {
    assert Shaped(r.slots) && MessagesOk(ms);
    hide Inv, Complete, IncompleteSet, Arrive, ArrivalOk, MessagesOk, StatusesOk, Expected, Due;
    AnyStep(ms, arr, r.slots, a, now);
    StatusesNext(arr, r.statuses, a, Arrive(ms, r.slots, a, now).1);
    ExpectedNext(ms, arr, a);
  }

  lemma NoneDelivered(ms: Messages, ss: seq<Slot>)
    requires MessagesOk(ms) && Shaped(ss)
    ensures Delivers(ms, [], Received(Reset(ss), [], []))
  {
    ResetInv(ms, ss);
  }

  lemma ReceiveStep(ms: Messages, ss: seq<Slot>, arr: seq<Arrival>, nows: seq<nat>)
    requires Shaped(ss) && Session(ms, arr) && |nows| == |arr| > 0
    ensures MessagesOk(ms) && ArrivalsOk(ms, arr)
    ensures var n := |arr| - 1;
            && ArrivalsOk(ms, arr[..n]) && ArrivalOk(ms, arr[n]) && arr[..n] + [arr[n]] == arr
            && Receive(ms, ss, arr, nows) == Next(ms, Receive(ms, ss, arr[..n], nows[..n]), arr[n], nows[n])
  {
    hide Next, ArrivalOk, MessagesOk, RepeatsEarly, Room;
  }

  /** For any messages, any clock readings, any arrival order and any repetitions of fragments of
      unfinished messages: new fragments are accepted, repeated ones are refused, and the
      deliveries are exactly those due. */
  lemma {:induction false} SessionDelivers(ms: Messages, ss: seq<Slot>, arr: seq<Arrival>, nows: seq<nat>)
    requires Shaped(ss) && Session(ms, arr) && |nows| == |arr|
    ensures Delivers(ms, arr, Receive(ms, Reset(ss), arr, nows))
  {
    assert Shaped(Reset(ss));
    if arr == [] {
      NoneDelivered(ms, ss);
    } else {
      hide Delivers, Session, Reset, Shaped, MessagesOk, ArrivalsOk, ArrivalOk, IncompleteSet, Complete, Receive, Next;
      var n := |arr| - 1;
      SessionPrefix(ms, arr, n);
      ReceiveStep(ms, Reset(ss), arr, nows);
      SessionDelivers(ms, ss, arr[..n], nows[..n]);
      NextDelivers(ms, arr[..n], Receive(ms, Reset(ss), arr[..n], nows[..n]), arr[n], nows[n]);
    }
  }

  /** The numbers of the delivered messages, in order of delivery. */
  function Numbers(ms: Messages, arr: seq<Arrival>): seq<nat> {
    if arr == [] then []
    else
      var M := arr[|arr| - 1].M;
      Numbers(ms, arr[..|arr| - 1]) + if Complete(ms, arr, M) then [M] else []
  }

  ghost predicate Named(ms: Messages, out: seq<Message>, numbers: seq<nat>) {
    |out| == |numbers| && forall i :: 0 <= i < |out| ==> numbers[i] in ms && out[i] == ms[numbers[i]]
  }

  lemma {:induction false} ExpectedNamed(ms: Messages, arr: seq<Arrival>)
    ensures Named(ms, Expected(ms, arr), Numbers(ms, arr))
  {
    if arr != [] {
      ExpectedNamed(ms, arr[..|arr| - 1]);
    }
  }

  /** An arrival completes at most its own message, and only if it was incomplete. */
  lemma ArrivalCompletes(ms: Messages, arr: seq<Arrival>, a: Arrival, M: nat)
    requires ArrivalOk(ms, a) && (a in arr ==> !Complete(ms, arr, a.M))
    ensures !Complete(ms, arr, a.M)
    ensures M != a.M ==> (Complete(ms, arr + [a], M) <==> Complete(ms, arr, M))
  {
    ArrivalFrame(ms, arr, a, M);
    assert a == Arrival(a.M, a.N);
  }

  lemma RepeatsPrefix(ms: Messages, arr: seq<Arrival>, n: nat)
    requires RepeatsEarly(ms, arr) && n < |arr|
    ensures RepeatsEarly(ms, arr[..n]) && (arr[n] in arr[..n] ==> !Complete(ms, arr[..n], arr[n].M))
  {
    hide Complete;
    assert forall i :: 0 <= i < n ==> arr[..n][..i] == arr[..i];
  }

  lemma {:induction false} CountOnce(ms: Messages, arr: seq<Arrival>, M: nat)
    requires RepeatsEarly(ms, arr) && ArrivalsOk(ms, arr)
    ensures multiset(Numbers(ms, arr))[M] == if Complete(ms, arr, M) then 1 else 0
  {
    if arr != [] {
      var n := |arr| - 1;
      var p, a := arr[..n], arr[n];
      RepeatsPrefix(ms, arr, n);
      hide RepeatsEarly, Complete, ArrivalOk;
      CountOnce(ms, p, M);
      ArrivalCompletes(ms, p, a, M);
      assert p + [a] == arr;
      if Complete(ms, arr, a.M) {
        assert Numbers(ms, arr) == Numbers(ms, p) + [a.M];
      } else {
        assert Numbers(ms, arr) == Numbers(ms, p);
      }
    } else {
      assert !Complete(ms, arr, M) by {
        if M in ms { assert 0 < FragmentCount(|ms[M].data|) && Arrival(M, 0) !in arr; }
      }
    }
  }

  /** Exactly the complete messages are delivered, each once, whatever the arrival order. */
  lemma DeliveredOnce(ms: Messages, ss: seq<Slot>, arr: seq<Arrival>, nows: seq<nat>, M: nat)
    requires Shaped(ss) && Session(ms, arr) && |nows| == |arr|
    ensures Named(ms, Receive(ms, Reset(ss), arr, nows).out, Numbers(ms, arr))
    ensures multiset(Numbers(ms, arr))[M] == if Complete(ms, arr, M) then 1 else 0
  {
    SessionDelivers(ms, ss, arr, nows);
    ExpectedNamed(ms, arr);
    CountOnce(ms, arr, M);
    hide Receive, Expected, Numbers, Complete, Inv;
  }
}
