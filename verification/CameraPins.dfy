/** What the pins of one camera contribute to the server's and the client's list, and exactly when
    the two contributions agree. */
module CameraPins {
  import opened Words
  import opened CameraList
  import opened CameraServer

  /** What the driver answers to the data-range query of a pin, the size and count in front; None
      for a pin that is no output, no capture or preview pin, or whose query fails. */
  type Pin = Option<seq<Unit>>

  /** The outcome of one pin: the ranges kept, and whether its count reached zero. */
  type Outcome = (seq<seq<Unit>>, bool)

  /** The answer fits the buffer and its size and count make sense to the code. */
  predicate Readable(pin: Pin, cb: nat) {
    && pin.Some? && |pin.value| > 4 && 2 * |pin.value| <= cb
    && Long(pin.value, 0) == 2 * |pin.value| && Long(pin.value, 1) > 0
  }

  function Result(d: Device, pin: Pin, cb: nat, room: nat): (r: Outcome)
    ensures forall i :: 0 <= i < |r.0| ==> |r.0[i]| == 2 * RANGE_WORDS && Long(r.0[i], 0) == RANGE_BYTES
    ensures VFI_BYTES * |r.0| <= room && RANGE_BYTES * |r.0| <= cb
  {
    if Readable(pin, cb) then Select(d, pin.value, 2, 2 * |pin.value| - 8, Long(pin.value, 1), room) else ([], false)
  }

  /** The outcomes of the pins: a pin consumes buffer space only if it is committed, but room for
      entries in any case. */
  function Outcomes(d: Device, pins: seq<Pin>, cb: nat, room: nat): (r: seq<Outcome>)
    ensures |r| == |pins|
  {
    if pins == [] then []
    else
      var o := Result(d, pins[0], cb, room);
      [o] + Outcomes(d, pins[1..], if o.1 then cb - RANGE_BYTES * |o.0| else cb, room - VFI_BYTES * |o.0|)
  }

  /** The server keeps the ranges of a pin only if all were read. */
  function ServerRanges(os: seq<Outcome>): seq<seq<Unit>> {
    if os == [] then [] else (if os[0].1 then os[0].0 else []) + ServerRanges(os[1..])
  }

  /** The client's entries stay in any case. */
  function ClientEntries(d: Device, os: seq<Outcome>): seq<seq<Unit>> {
    if os == [] then [] else Mapped(d, os[0].0) + ClientEntries(d, os[1..])
  }

  predicate NothingLost(os: seq<Outcome>) {
    forall i :: 0 <= i < |os| ==> os[i].1 || os[i].0 == []
  }

  lemma {:induction false} ListLengths(d: Device, os: seq<Outcome>)
    ensures |ServerRanges(os)| <= |ClientEntries(d, os)|
    ensures |ServerRanges(os)| == |ClientEntries(d, os)| <==> NothingLost(os)
  {
    if os != [] {
      ListLengths(d, os[1..]);
      assert NothingLost(os) <==> (os[0].1 || os[0].0 == []) && NothingLost(os[1..]);
    }
  }

  lemma {:induction false} ListsSame(d: Device, os: seq<Outcome>)
    requires NothingLost(os)
    ensures ClientEntries(d, os) == Mapped(d, ServerRanges(os))
  {
    if os != [] {
      ListsSame(d, os[1..]);
      assert Mapped(d, os[0].0 + ServerRanges(os[1..])) == Mapped(d, os[0].0) + Mapped(d, ServerRanges(os[1..]));
      assert !os[0].1 ==> Mapped(d, os[0].0) == [];
    }
  }

  /** The lists of a camera correspond exactly if every pin that was abandoned kept nothing. */
  lemma ListsAgree(d: Device, os: seq<Outcome>)
    ensures ClientEntries(d, os) == Mapped(d, ServerRanges(os)) <==> NothingLost(os)
  {
    ListLengths(d, os);
    if NothingLost(os) {
      ListsSame(d, os);
    }
    hide ServerRanges, ClientEntries;
  }

  // ---- Well-formed devices -----------------------------------------------------------

  function Concat(rs: seq<seq<Unit>>): seq<Unit> {
    if rs == [] then [] else rs[0] + Concat(rs[1..])
  }

  function Words32(x: nat): (w: seq<Unit>)
    requires x < ULONG_RANGE
    ensures |w| == 2 && Long(w, 0) == x
  {
    [x % 0x1_0000, x / 0x1_0000]
  }

  /** A pin that announces its data ranges truthfully. */
  predicate Truthful(rs: seq<seq<Unit>>) {
    rs != [] && RangesOk(rs) && |rs| < ULONG_RANGE && 8 + TotalBytes(rs) < ULONG_RANGE
  }

  function Answer(rs: seq<seq<Unit>>): (data: seq<Unit>)
    requires Truthful(rs)
  {
    Words32(8 + TotalBytes(rs)) + Words32(|rs|) + Concat(rs)
  }

  lemma {:induction false} ConcatSize(rs: seq<seq<Unit>>)
    ensures 2 * |Concat(rs)| == TotalBytes(rs)
  {
    if rs != [] {
      ConcatSize(rs[1..]);
    }
  }

  lemma SliceParts(w: seq<Unit>, i: nat, a: seq<Unit>, b: seq<Unit>)
    requires i + |a| + |b| <= |w| && w[i..i + |a| + |b|] == a + b
    ensures w[i..i + |a|] == a && w[i + |a|..i + |a| + |b|] == b
  {
    var whole := w[i..i + |a| + |b|];
    assert w[i..i + |a|] == whole[..|a|];
    assert w[i + |a|..i + |a| + |b|] == whole[|a|..];
  }

  lemma LaidCons(w: seq<Unit>, k: nat, rs: seq<seq<Unit>>)
    requires rs != [] && RangeOk(rs[0]) && 2 * k + |rs[0]| <= |w| && w[2 * k..2 * k + |rs[0]|] == rs[0]
    requires PinLaid(w, k + |rs[0]| / 2, rs[1..])
    ensures PinLaid(w, k, rs)
  {
    hide RangeOk;
  }

  lemma {:induction false} ConcatLaid(w: seq<Unit>, k: nat, rs: seq<seq<Unit>>)
    requires RangesOk(rs) && 2 * k + |Concat(rs)| <= |w| && w[2 * k..2 * k + |Concat(rs)|] == Concat(rs)
    ensures PinLaid(w, k, rs)
    decreases |rs|
  {
    if rs == [] {
    } else {
      hide *;
      var r, rest := rs[0], Concat(rs[1..]);
      RangesFirst(rs);
      WholeWords(r);
      SliceParts(w, 2 * k, r, rest);
      ConcatLaid(w, k + |r| / 2, rs[1..]);
      LaidCons(w, k, rs);
    }
  }

  lemma RangesFirst(rs: seq<seq<Unit>>)
    requires RangesOk(rs) && rs != []
    ensures Concat(rs) == rs[0] + Concat(rs[1..]) && RangeOk(rs[0]) && RangesOk(rs[1..])
  {
    hide RangeOk;
  }

  /** The answer of a truthful pin, as the code reads it. */
  lemma AnswerRead(rs: seq<seq<Unit>>)
    requires Truthful(rs)
    ensures var data := Answer(rs);
            && |data| > 4 && 2 * |data| == 8 + TotalBytes(rs) && Long(data, 0) == 2 * |data| && Long(data, 1) == |rs|
            && PinLaid(data, 2, rs)
  {
    var data, c := Answer(rs), Concat(rs);
    ConcatSize(rs);
    assert RangeOk(rs[0]);
    WholeWords(rs[0]);
    assert |c| > 0;
    assert data[0] == Words32(8 + TotalBytes(rs))[0] && data[1] == Words32(8 + TotalBytes(rs))[1];
    assert data[2] == Words32(|rs|)[0] && data[3] == Words32(|rs|)[1];
    assert data[4..4 + |c|] == c;
    ConcatLaid(data, 2, rs);
    hide RangeOk, RangesOk, Concat, PinLaid;
  }

  /** How many usable ranges a pin offers. */
  function Usables(d: Device, rs: seq<seq<Unit>>): nat
    requires RangesOk(rs)
  {
    |Filter(d, rs)|
  }

  /** On well-formed data the selection keeps the first usable ranges that find room, and is
      complete exactly if all do. */
  lemma {:induction false} SelectExact(d: Device, w: seq<Unit>, k: nat, rs: seq<seq<Unit>>, size: nat, room: nat)
    requires PinLaid(w, k, rs) && rs != [] && size == TotalBytes(rs) && 4 * k + size <= 2 * |w| && RangesOk(rs)
    ensures var r := Select(d, w, k, size, |rs|, room);
            var n := Usables(d, rs);
            && (r.1 <==> VFI_BYTES * n <= room)
            && |r.0| == (if VFI_BYTES * n <= room then n else room / VFI_BYTES)
    decreases |rs|
  {
    hide RangeOk, RangesOk, Select, Wanted, Usable, Rounded, Long, Filter, TotalBytes, PinLaid;
    LaidStep(d, w, k, rs);
    var r, rest := rs[0], rs[1..];
    LaidFirst(d, w, k, r, size);
    SelectStep(d, w, k, size, |rs|, room);
    RangeHeader(r);
    if |rs| > 1 && (Usable(d, r) ==> room >= VFI_BYTES) {
      SelectExact(d, w, k + |r| / 2, rest, size - 2 * |r|, if Usable(d, r) then room - VFI_BYTES else room);
    }
  }

  lemma ResultExact(d: Device, rs: seq<seq<Unit>>, cb: nat, room: nat)
    requires Truthful(rs) && 8 + TotalBytes(rs) <= cb
    ensures var r := Result(d, Some(Answer(rs)), cb, room);
            var n := Usables(d, rs);
            && (r.1 <==> VFI_BYTES * n <= room)
            && |r.0| == (if VFI_BYTES * n <= room then n else room / VFI_BYTES)
            && RANGE_BYTES * |r.0| <= TotalBytes(rs)
  {
    AnswerRead(rs);
    var data := Answer(rs);
    hide Select, Usables, Answer, PinLaid;
    SelectExact(d, data, 2, rs, TotalBytes(rs), room);
  }

  // ---- Several pins share the room ---------------------------------------------------

  predicate AllTruthful(rss: seq<seq<seq<Unit>>>) {
    forall i :: 0 <= i < |rss| ==> Truthful(rss[i])
  }

  function Answers(rss: seq<seq<seq<Unit>>>): (pins: seq<Pin>)
    requires AllTruthful(rss)
    ensures |pins| == |rss| && forall i :: 0 <= i < |rss| ==> pins[i] == Some(Answer(rss[i]))
  {
    seq(|rss|, i requires 0 <= i < |rss| => Some(Answer(rss[i])))
  }

  function AllBytes(rss: seq<seq<seq<Unit>>>): nat {
    if rss == [] then 0 else 8 + TotalBytes(rss[0]) + AllBytes(rss[1..])
  }

  function Offered(d: Device, rss: seq<seq<seq<Unit>>>): nat
    requires AllTruthful(rss)
  {
    if rss == [] then 0 else Usables(d, rss[0]) + Offered(d, rss[1..])
  }

  /** The entries the room can hold run out only between two pins, if at all. */
  predicate NoPinCut(d: Device, rss: seq<seq<seq<Unit>>>, capacity: nat)
    requires AllTruthful(rss)
  {
    rss == [] ||
    if Usables(d, rss[0]) <= capacity then NoPinCut(d, rss[1..], capacity - Usables(d, rss[0])) else capacity == 0
  }

  lemma {:induction false} NoPinCutMeans(d: Device, rss: seq<seq<seq<Unit>>>, capacity: nat)
    requires AllTruthful(rss)
    ensures NoPinCut(d, rss, capacity) <==>
              Offered(d, rss) <= capacity || exists i :: 0 <= i <= |rss| && Offered(d, rss[..i]) == capacity
  {
    if rss != [] {
      var n := Usables(d, rss[0]);
      if n <= capacity {
        NoPinCutMeans(d, rss[1..], capacity - n);
        forall i | 0 <= i <= |rss[1..]| ensures Offered(d, rss[..i + 1]) == n + Offered(d, rss[1..][..i]) {
          assert rss[..i + 1][1..] == rss[1..][..i];
        }
        if i :| 0 <= i <= |rss[1..]| && Offered(d, rss[1..][..i]) == capacity - n {
          assert Offered(d, rss[..i + 1]) == capacity;
        }
        if i :| 0 <= i <= |rss| && Offered(d, rss[..i]) == capacity {
          if i > 0 {
            assert Offered(d, rss[1..][..i - 1]) == capacity - n;
          } else {
            assert capacity == 0 && Offered(d, rss[1..][..0]) == 0;
          }
        }
      } else {
        if capacity == 0 {
          assert Offered(d, rss[..0]) == capacity;
        }
        forall i | 0 <= i <= |rss| && Offered(d, rss[..i]) == capacity ensures capacity == 0 {
          if i > 0 {
            assert rss[..i][0] == rss[0];
          }
        }
      }
    }
  }

  lemma {:induction false} NoRoomNoCut(d: Device, rss: seq<seq<seq<Unit>>>)
    requires AllTruthful(rss)
    ensures NoPinCut(d, rss, 0)
  {
    if rss != [] {
      NoRoomNoCut(d, rss[1..]);
    }
  }

  lemma AnswersFirst(rss: seq<seq<seq<Unit>>>)
    requires AllTruthful(rss) && rss != []
    ensures Truthful(rss[0]) && AllTruthful(rss[1..])
    ensures Answers(rss)[0] == Some(Answer(rss[0])) && Answers(rss)[1..] == Answers(rss[1..])
  {
    hide Truthful, Answer;
  }

  lemma LostFirst(o: Outcome, rest: seq<Outcome>)
    ensures NothingLost([o] + rest) <==> (o.1 || o.0 == []) && NothingLost(rest)
  {
    var os := [o] + rest;
    assert os[0] == o && forall i :: 0 <= i < |rest| ==> os[i + 1] == rest[i];
    if NothingLost(os) {
      forall i | 0 <= i < |rest| ensures rest[i].1 || rest[i].0 == [] {
        assert os[i + 1].1 || os[i + 1].0 == [];
      }
    }
  }

  /** What the first of several truthful pins leaves to the others. */
  lemma FirstPin(d: Device, rss: seq<seq<seq<Unit>>>, cb: nat, room: nat) returns (o: Outcome, cb': nat, room': nat)
    requires AllTruthful(rss) && rss != [] && AllBytes(rss) <= cb
    ensures AllTruthful(rss[1..]) && AllBytes(rss[1..]) <= cb' && room' / VFI_BYTES == room / VFI_BYTES - |o.0|
    ensures Outcomes(d, Answers(rss), cb, room) == [o] + Outcomes(d, Answers(rss[1..]), cb', room')
    ensures Truthful(rss[0]) && (o.1 <==> VFI_BYTES * Usables(d, rss[0]) <= room)
    ensures |o.0| == if VFI_BYTES * Usables(d, rss[0]) <= room then Usables(d, rss[0]) else room / VFI_BYTES
  {
    hide Outcomes, Result, Answers, Truthful, Usables, AllTruthful, TotalBytes;
    AnswersFirst(rss);
    ResultExact(d, rss[0], cb, room);
    o := Result(d, Answers(rss)[0], cb, room);
    room' := room - VFI_BYTES * |o.0|;
    cb' := if o.1 then cb - RANGE_BYTES * |o.0| else cb;
    RoomLeft(room, |o.0|);
    OutcomesFirst(d, Answers(rss), cb, room);
  }

  lemma RoomLeft(room: nat, n: nat)
    requires VFI_BYTES * n <= room
    ensures (room - VFI_BYTES * n) / VFI_BYTES == room / VFI_BYTES - n
  {
  }

  lemma OutcomesFirst(d: Device, pins: seq<Pin>, cb: nat, room: nat)
    requires pins != []
    ensures var o := Result(d, pins[0], cb, room);
            && VFI_BYTES * |o.0| <= room && (o.1 ==> RANGE_BYTES * |o.0| <= cb)
            && Outcomes(d, pins, cb, room) ==
               [o] + Outcomes(d, pins[1..], if o.1 then cb - RANGE_BYTES * |o.0| else cb, room - VFI_BYTES * |o.0|)
  {
    hide Result;
  }

  /** Nothing of a truthful camera is lost exactly if the room for entries, shared by its pins,
      does not run out inside a pin: all usable ranges fit, or the last entry that fits is the
      last of a pin. */
  lemma {:induction false} NothingLostIff(d: Device, rss: seq<seq<seq<Unit>>>, cb: nat, room: nat)
    requires AllTruthful(rss) && AllBytes(rss) <= cb
    ensures NothingLost(Outcomes(d, Answers(rss), cb, room)) <==> NoPinCut(d, rss, room / VFI_BYTES)
  {
    if rss != [] {
      hide Outcomes, Result, Answers, Truthful, Usables, AllTruthful, NothingLost, AllBytes;
      var o, cb', room' := FirstPin(d, rss, cb, room);
      LostFirst(o, Outcomes(d, Answers(rss[1..]), cb', room'));
      NothingLostIff(d, rss[1..], cb', room');
      if !o.1 && o.0 == [] {
        NoRoomNoCut(d, rss[1..]);
      }
    }
  }

  /** The lists of a truthful camera correspond exactly under that condition. */
  lemma TruthfulAgree(d: Device, rss: seq<seq<seq<Unit>>>, cb: nat, room: nat)
    requires AllTruthful(rss) && AllBytes(rss) <= cb
    ensures var os := Outcomes(d, Answers(rss), cb, room);
            ClientEntries(d, os) == Mapped(d, ServerRanges(os)) <==>
            Offered(d, rss) <= room / VFI_BYTES ||
            exists i :: 0 <= i <= |rss| && Offered(d, rss[..i]) == room / VFI_BYTES
  {
    ListsAgree(d, Outcomes(d, Answers(rss), cb, room));
    NothingLostIff(d, rss, cb, room);
    NoPinCutMeans(d, rss, room / VFI_BYTES);
    hide *;
  }

  lemma TwoRanges(d: Device, r: seq<Unit>)
    requires RangeOk(r) && Usable(d, r)
    ensures Truthful([r, r]) && TotalBytes([r, r]) == 4 * |r| && Usables(d, [r, r]) == 2
  {
    var rs, one := [r, r], [r];
    WholeWords(r);
    assert rs[1..] == one && one[1..] == [];
    assert RangesOk(one) && RangesOk(one[1..]);
    assert TotalBytes(one) == 2 * |r| && TotalBytes(rs) == 2 * |r| + TotalBytes(one);
    assert Filter(d, one) == [r] + Filter(d, one[1..]) && Filter(d, rs) == [r] + Filter(d, one);
  }

  /** It fails already for one pin with two usable ranges and room for one entry: the client gets
      the entry, the server drops the range. */
  lemma TwoRangesOneRoom(d: Device, r: seq<Unit>, cb: nat)
    requires RangeOk(r) && Usable(d, r) && 8 + 4 * |r| <= cb
    ensures Truthful([r, r])
    ensures var os := Outcomes(d, [Some(Answer([r, r]))], cb, VFI_BYTES);
            |ClientEntries(d, os)| == 1 && ServerRanges(os) == []
  {
    var rs := [r, r];
    WholeWords(r);
    TwoRanges(d, r);
    ResultExact(d, rs, cb, VFI_BYTES);
    var o := Result(d, Some(Answer(rs)), cb, VFI_BYTES);
    assert Outcomes(d, [Some(Answer(rs))], cb, VFI_BYTES) == [o];
    hide Result, Outcomes, Answer, Truthful, Usables;
  }
}
