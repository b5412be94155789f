/** The receiver of fragmented messages: four slots, searched by `get` and filled by `OnData`,
    as functions of the slot contents. */
module Reassembly {
  import opened Words
  import opened Bytes
  import opened Fragments

  const SLOTS: nat := 4
  const NO_MESSAGE: nat := 0xffff_ffff
  const BUFFER: nat := 0x40 * 0x580

  /** `MSGB`. The counter is a LONG, kept as its 32-bit pattern. */
  datatype Slot = Slot(bits: Bits, M: nat, length: nat, need: nat, tick: nat, buf: seq<Byte>)

  predicate Free(s: Slot) {
    s.bits == NoBits()
  }

  /** The first slot of message number M. */
  function Find(ss: seq<Slot>, M: nat): (i: nat)
    ensures i <= |ss|
    ensures i < |ss| ==> ss[i].M == M
    ensures forall j :: 0 <= j < i ==> ss[j].M != M
  {
    if ss == [] then 0
    else if ss[0].M == M then 0
    else 1 + Find(ss[1..], M)
  }

  function FirstFree(ss: seq<Slot>): (i: nat)
    ensures i <= |ss|
    ensures i < |ss| ==> Free(ss[i])
    ensures forall j :: 0 <= j < i ==> !Free(ss[j])
  {
    if ss == [] then 0
    else if Free(ss[0]) then 0
    else 1 + FirstFree(ss[1..])
  }

  function Age(s: Slot, now: nat): nat {
    U32(now - s.tick)
  }

  /** The largest age among slots 0..n, and the first slot that has it if it exceeds 999. */
  function Eldest(ss: seq<Slot>, now: nat, n: nat): (r: (nat, nat))
    requires n <= |ss|
    ensures r.1 <= |ss|
  {
    if n == 0 then (0, |ss|)
    else
      var (age, i) := Eldest(ss, now, n - 1);
      var a := Age(ss[n - 1], now);
      if age < a then (a, if 999 < a then n - 1 else i) else (age, i)
  }

  lemma {:induction false} EldestSoFar(ss: seq<Slot>, now: nat, n: nat)
    requires n <= |ss|
    ensures var (age, i) := Eldest(ss, now, n);
            && (forall j :: 0 <= j < n ==> Age(ss[j], now) <= age) && (i == |ss| <==> age <= 999)
            && (i < |ss| ==> i < n && Age(ss[i], now) == age && forall j :: 0 <= j < i ==> Age(ss[j], now) < age)
  {
    if n > 0 {
      EldestSoFar(ss, now, n - 1);
    }
  }

  /** The slot evicted is older than 999 ms, none is older, and those before it are younger; there is none
      exactly if no slot is older than 999 ms. The tick count wraps around at 2^32. */
  lemma EldestIs(ss: seq<Slot>, now: nat)
    ensures var i := Eldest(ss, now, |ss|).1;
            && (i == |ss| <==> forall j :: 0 <= j < |ss| ==> (now - ss[j].tick) % 0x1_0000_0000 <= 999)
            && (i < |ss| ==>
                  var age := (now - ss[i].tick) % 0x1_0000_0000;
                  && age > 999 && (forall j :: 0 <= j < |ss| ==> (now - ss[j].tick) % 0x1_0000_0000 <= age)
                  && forall j :: 0 <= j < i ==> (now - ss[j].tick) % 0x1_0000_0000 < age)
  {
    EldestSoFar(ss, now, |ss|);
    hide Eldest;
    assert forall j :: 0 <= j < |ss| ==> Age(ss[j], now) == (now - ss[j].tick) % 0x1_0000_0000;
  }

  /** The slot `get` returns (|ss| when none) and whether it was assigned to M anew. */
  function Choose(ss: seq<Slot>, M: nat, length: nat, now: nat): (r: (nat, bool))
    ensures r.0 <= |ss| && (r.1 ==> r.0 < |ss|)
  {
    var i := Find(ss, M);
    if i < |ss| then (if ss[i].length == length then i else |ss|, false)
    else
      var j := FirstFree(ss);
      var v := if j < |ss| then j else Eldest(ss, now, |ss|).1;
      (v, v < |ss|)
  }

  function Got(ss: seq<Slot>, M: nat, length: nat, now: nat): (r: (nat, seq<Slot>))
    ensures r.0 <= |ss| == |r.1|
  {
    var (i, anew) := Choose(ss, M, length, now);
    (i, if anew then ss[i := ss[i].(length := length, need := U32(length), M := M)] else ss)
  }

  /** Which slot that is: the first of the message, if its length is the same; without one the first free
      slot; and else the eldest, if it is older than 999 ms. Only the slot taken changes. */
  lemma GotIs(ss: seq<Slot>, M: nat, length: nat, now: nat, k: nat)
    ensures var (i, ts) := Got(ss, M, length, now);
            && (k < |ss| && ss[k].M == M && (forall j :: 0 <= j < k ==> ss[j].M != M) ==>
                  i == (if ss[k].length == length then k else |ss|) && ts == ss)
            && ((forall j :: 0 <= j < |ss| ==> ss[j].M != M) ==>
                  && (k < |ss| && Free(ss[k]) && (forall j :: 0 <= j < k ==> !Free(ss[j])) ==> i == k)
                  && ((forall j :: 0 <= j < |ss| ==> !Free(ss[j])) ==>
                        && (i == |ss| <==> forall j :: 0 <= j < |ss| ==> (now - ss[j].tick) % 0x1_0000_0000 <= 999)
                        && (i < |ss| ==>
                              var age := (now - ss[i].tick) % 0x1_0000_0000;
                              age > 999 && forall j :: 0 <= j < |ss| ==> (now - ss[j].tick) % 0x1_0000_0000 <= age))
                  && ts == if i == |ss| then ss
                           else ss[i := ss[i].(length := length, need := length % 0x1_0000_0000, M := M)])
  {
    EldestIs(ss, now);
    hide Eldest, Free;
  }

  datatype Status = Success | BadData

  /** A fragment as the authenticated sender makes it: it fits its place in the buffer. */
  predicate Fits(f: Fragment) {
    |f.buf| <= MAX_PACKET && f.length <= BUFFER
  }

  predicate Shaped(ss: seq<Slot>) {
    |ss| == SLOTS && forall i :: 0 <= i < |ss| ==> |ss[i].buf| == BUFFER
  }

  /** What a fragment does to its slot: the new slot and whether the message is delivered. The
      contiguity test names a field of the endpoint that is never written, so it always holds
      and the counter alone decides. */
  function Filled(s: Slot, f: Fragment, now: nat): (r: (Slot, bool))
    requires f.N < MAX_FRAGMENTS && Fits(f) && |s.buf| == BUFFER
  {
    var done := s.need == U32(|f.buf|) && Contiguous(NoBits());
    (s.(bits := if done then NoBits() else s.bits[f.N := true],
        buf := Put(s.buf, f.N * MAX_PACKET, f.buf),
        tick := now, need := U32(s.need - |f.buf|)), done)
  }

  /** A fragment stored: its bytes lie at its index times 1408, the slot is as young as the clock, the counter
      goes down by their number, and the message is delivered, and its bits cleared, exactly if that is what
      the counter stood at, both taken modulo 2^32. */
  lemma FilledIs(s: Slot, f: Fragment, now: nat)
    requires f.N < MAX_FRAGMENTS && Fits(f) && |s.buf| == BUFFER
    ensures var (r, done) := Filled(s, f, now);
            && (done <==> s.need == |f.buf| % 0x1_0000_0000) && r.need == (s.need - |f.buf|) % 0x1_0000_0000
            && r.tick == now && r.M == s.M && r.length == s.length
            && |r.buf| == |s.buf| && (forall i :: 0 <= i < |f.buf| ==> r.buf[1408 * f.N + i] == f.buf[i])
            && (forall i :: 0 <= i < |s.buf| && !(1408 * f.N <= i < 1408 * f.N + |f.buf|) ==> r.buf[i] == s.buf[i])
            && |r.bits| == |s.bits|
            && forall n :: 0 <= n < |r.bits| ==> r.bits[n] == (!done && (n == f.N || s.bits[n]))
  {
    IncrementBlock(NoBits(), 0);
    hide Contiguous;
  }

  /** `OnData`: the new slots, the status, and what `OnUserData` is called with. */
  function OnData(ss: seq<Slot>, f: Fragment, now: nat): (r: (seq<Slot>, Status, Option<Message>))
    requires Shaped(ss) && Fits(f)
    ensures Shaped(r.0)
  {
    var (i, ts) := Got(ss, f.M, f.length, now);
    if i == |ss| then (ts, Success, None)
    else if f.N >= MAX_FRAGMENTS || ts[i].bits[f.N] then (ts, BadData, None)
    else
      var (s, done) := Filled(ts[i], f, now);
      (ts[i := s], Success, if done then Some(Message(f.kind, s.buf[..f.length])) else None)
  }

  /** `Init`: every slot free and unassigned; the other fields keep their old contents. */
  function Reset(ss: seq<Slot>): (r: seq<Slot>)
    ensures |r| == |ss|
  {
    seq(|ss|, i requires 0 <= i < |ss| => ss[i].(M := NO_MESSAGE, bits := NoBits()))
  }
}
