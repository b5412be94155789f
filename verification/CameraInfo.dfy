/** The server builds both lists: for every camera its name and entries for the client, and its
    ranges for itself. */
module CameraInfo {
  import opened Words
  import opened CameraList
  import opened CameraServer
  import opened CameraPins
  import opened CameraLayout

  // ---- One pin -----------------------------------------------------------------------

  lemma SliceShift(w: seq<Unit>, k: nat, data: seq<Unit>, j: nat, n: nat)
    requires 2 * k + |data| <= |w| && w[2 * k..2 * k + |data|] == data && 2 * j + n <= |data|
    ensures w[2 * (k + j)..2 * (k + j) + n] == data[2 * j..2 * j + n]
    ensures n >= 2 ==> Long(w, k + j) == Long(data, j)
  {
    assert forall i :: 0 <= i < |data| ==> w[2 * k + i] == w[2 * k..2 * k + |data|][i] == data[i];
  }

  /** Whether a range is kept does not depend on where the data lies. */
  lemma WantedShift(d: Device, w: seq<Unit>, k: nat, data: seq<Unit>, j: nat, size: nat)
    requires 2 * k + |data| <= |w| && w[2 * k..2 * k + |data|] == data && 4 * j + size <= 2 * |data|
             && size >= LEAST_BYTES
    ensures Long(w, k + j) == Long(data, j)
    ensures Rounded(Long(data, j)) <= size ==>
              && Wanted(d, w, k + j, size) == Wanted(d, data, j, size)
              && (Wanted(d, data, j, size) ==>
                    && 2 * (j + RANGE_WORDS) <= |data|
                    && w[2 * (k + j)..2 * (k + j + RANGE_WORDS)] == data[2 * j..2 * (j + RANGE_WORDS)])
  {
    SliceShift(w, k, data, j, 2);
    if Rounded(Long(data, j)) <= size && Long(data, j) == RANGE_BYTES {
      SliceShift(w, k, data, j, 2 * RANGE_WORDS);
    }
    hide Long;
  }

  lemma {:induction false} SelectShift(d: Device, w: seq<Unit>, k: nat, data: seq<Unit>, j: nat, size: nat,
                                       count: nat, room: nat)
    requires 2 * k + |data| <= |w| && w[2 * k..2 * k + |data|] == data && 4 * j + size <= 2 * |data| && count > 0
    ensures Select(d, w, k + j, size, count, room) == Select(d, data, j, size, count, room)
    decreases count
  {
    hide Select, Wanted, Rounded, Long;
    SelectStep(d, w, k + j, size, count, room);
    SelectStep(d, data, j, size, count, room);
    if size >= LEAST_BYTES {
      WantedShift(d, w, k, data, j, size);
      var n := Rounded(Long(data, j));
      if Long(data, j) >= LEAST_BYTES && n <= size && count > 1 {
        var keep := Wanted(d, data, j, size);
        if !keep || room >= VFI_BYTES {
          SelectShift(d, w, k, data, j + n / 4, size - n, count - 1, if keep then room - VFI_BYTES else room);
        }
      }
    }
  }

  /** What the selection places has the size of its items. */
  lemma PlacedSize(b: seq<Unit>, w: seq<Unit>, k: nat, size: nat, items: seq<seq<Unit>>, to: nat)
    requires Placed(b, w, 2 * k, Flat(items), to) && Sized(items, 2 * size)
    ensures Placed(b, w, 2 * k, Concat(items), to) && to == 2 * k + Times(2 * size, |items|)
  {
    FlatIsConcat(items);
    ConcatLength(items, 2 * size);
  }

  /** Only what lies before the place matters, and nothing placed is placed in any case. */
  lemma PlacedFrom(b: seq<Unit>, w: seq<Unit>, v: seq<Unit>, i: nat, f: seq<Unit>, to: nat)
    requires Placed(b, w, i, f, to) && |w| == |v| && w[..i] == v[..i]
    ensures Placed(b, v, i, f, to) && Placed(b, v, i, Concat([]), i)
  {
    assert b[..i] == b[..to][..i];
  }

  lemma NothingPlaced(b: seq<Unit>, w: seq<Unit>, i: nat)
    requires |b| == |w| && i <= |w| && b[..i] == w[..i]
    ensures Placed(b, w, i, Concat([]), i)
  {
  }

  /** The running positions and sizes, in 32-bit words and in bytes. */
  datatype Space = Space(k: nat, cb: nat, pf: nat, cb2: nat)

  predicate Inside(s: Space, n: nat, m: nat) {
    4 * s.k + s.cb <= 2 * n && 4 * s.pf + s.cb2 <= 2 * m
  }

  /** The space behind `kept` ranges and `entries` entries. */
  ghost predicate Advanced(s: Space, s': Space, kept: nat, entries: nat) {
    && s'.k == s.k + RANGE_WORDS * kept && s'.cb + RANGE_BYTES * kept == s.cb
    && s'.pf == s.pf + ENTRY_WORDS * entries && s'.cb2 + VFI_BYTES * entries == s.cb2
  }

  function Committed(o: Outcome): seq<seq<Unit>> {
    if o.1 then o.0 else []
  }

  /** The driver answers at the free part of the buffer; the answer is used if its size and count
      make sense. */
  method Query(buf: array<Unit>, s: Space, pin: Pin) returns (count: nat, size: nat)
    requires 4 * s.k + s.cb <= 2 * buf.Length
    modifies buf
    ensures buf[..2 * s.k] == old(buf[..2 * s.k])
    ensures count > 0 <==> Readable(pin, s.cb)
    ensures count > 0 ==>
              && count == Long(pin.value, 1) && size == 2 * |pin.value| - 8 && 2 * s.k + |pin.value| <= buf.Length
              && buf[2 * s.k..2 * s.k + |pin.value|] == pin.value
  {
    count, size := 0, 0;
    if pin == None || 2 * |pin.value| > s.cb {
      return;
    }
    var data := pin.value;
    Write(buf, 2 * s.k, data);
    if |data| <= 4 {
      return;
    }
    SliceShift(buf[..], s.k, data, 0, 2);
    SliceShift(buf[..], s.k, data, 1, 2);
    if Long(buf[..], s.k) == 2 * |data| {
      count, size := Long(buf[..], s.k + 1), Long(buf[..], s.k) - 8;
    }
  }

  /** One pin has left its ranges, if they are committed, and its entries. */
  ghost predicate PinDone(d: Device, o: Outcome, s: Space, s': Space, b: seq<Unit>, w: seq<Unit>, e: seq<Unit>,
                          v: seq<Unit>) {
    && Placed(b, w, 2 * s.k, Concat(Committed(o)), 2 * s'.k)
    && Placed(e, v, 2 * s.pf, Concat(Mapped(d, o.0)), 2 * s'.pf)
    && Advanced(s, s', |Committed(o)|, |o.0|)
  }

  lemma PinSkipped(d: Device, s: Space, b: seq<Unit>, w: seq<Unit>, e: seq<Unit>)
    requires Inside(s, |w|, |e|) && |b| == |w| && b[..2 * s.k] == w[..2 * s.k]
    ensures PinDone(d, ([], false), s, s, b, w, e, e)
  {
    NothingPlaced(b, w, 2 * s.k);
    NothingPlaced(e, e, 2 * s.pf);
    assert Mapped(d, []) == [];
  }

  /** The space behind the places the selection has filled. */
  function Filled(s: Space, to: nat, e: nat, all: bool): Space
    requires 2 * (e - 2 * s.pf) <= s.cb2 && 2 * (to - 2 * s.k) <= s.cb
  {
    if all then Space(to / 2, s.cb - 2 * (to - 2 * s.k), e / 2, s.cb2 - 2 * (e - 2 * s.pf))
    else Space(s.k, s.cb, e / 2, s.cb2 - 2 * (e - 2 * s.pf))
  }

  lemma FilledIs(s: Space, to: nat, e: nat, all: bool, n: nat)
    requires VFI_BYTES * n <= s.cb2 && RANGE_BYTES * n <= s.cb
    requires to == 2 * s.k + 2 * RANGE_WORDS * n && e == 2 * s.pf + 2 * ENTRY_WORDS * n
    ensures 2 * (e - 2 * s.pf) <= s.cb2 && 2 * (to - 2 * s.k) <= s.cb
    ensures Filled(s, to, e, all) ==
            if all then
              Space(s.k + RANGE_WORDS * n, s.cb - RANGE_BYTES * n, s.pf + ENTRY_WORDS * n, s.cb2 - VFI_BYTES * n)
            else Space(s.k, s.cb, s.pf + ENTRY_WORDS * n, s.cb2 - VFI_BYTES * n)
  {
    Half(s.k + RANGE_WORDS * n);
    Half(s.pf + ENTRY_WORDS * n);
  }

  lemma Half(a: nat)
    ensures 2 * a / 2 == a
  {
  }

  lemma PinTaken(d: Device, o: Outcome, s: Space, b: seq<Unit>, w: seq<Unit>, v: seq<Unit>, q: seq<Unit>, to: nat,
                 e: nat)
    requires DeviceOk(d) && Sized(o.0, 2 * RANGE_WORDS)
    requires VFI_BYTES * |o.0| <= s.cb2 && RANGE_BYTES * |o.0| <= s.cb
    requires Placed(b, w, 2 * s.k, Flat(o.0), to) && 2 * s.k <= |w|
    requires Placed(v, q, 2 * s.pf, Flat(Mapped(d, o.0)), e)
    ensures 2 * (e - 2 * s.pf) <= s.cb2 && 2 * (to - 2 * s.k) <= s.cb && e >= 2 * s.pf && to >= 2 * s.k
    ensures PinDone(d, o, s, Filled(s, to, e, o.1), b, w, v, q)
  {
    assert Sized(Mapped(d, o.0), 2 * ENTRY_WORDS);
    PlacedSize(b, w, s.k, RANGE_WORDS, o.0, to);
    PlacedSize(v, q, s.pf, ENTRY_WORDS, Mapped(d, o.0), e);
    TimesEntry(|o.0|);
    hide Placed, Concat, Flat, Mapped, Times, Sized, DeviceOk, PinDone, Filled;
    PinFilled(d, o, s, b, w, v, q, to, e);
  }

  lemma PinFilled(d: Device, o: Outcome, s: Space, b: seq<Unit>, w: seq<Unit>, v: seq<Unit>, q: seq<Unit>, to: nat,
                  e: nat)
    requires VFI_BYTES * |o.0| <= s.cb2 && RANGE_BYTES * |o.0| <= s.cb
    requires to == 2 * s.k + 2 * RANGE_WORDS * |o.0| && e == 2 * s.pf + 2 * ENTRY_WORDS * |o.0|
    requires Placed(b, w, 2 * s.k, Concat(o.0), to) && Placed(v, q, 2 * s.pf, Concat(Mapped(d, o.0)), e)
    ensures 2 * (e - 2 * s.pf) <= s.cb2 && 2 * (to - 2 * s.k) <= s.cb
    ensures PinDone(d, o, s, Filled(s, to, e, o.1), b, w, v, q)
  {
    FilledIs(s, to, e, o.1, |o.0|);
    hide Placed, Concat, Mapped, Filled;
    PlacedFrom(b, w, w, 2 * s.k, Concat(o.0), to);
  }

  /** The answer of a pin in the buffer: its usable ranges are selected in place, and the buffer
      advances only if all were read. */
  method TakePin(d: Device, buf: array<Unit>, out: array<Unit>, s: Space, count: nat, size: nat, ghost o: Outcome)
    returns (s': Space)
    requires DeviceOk(d) && buf != out && Inside(s, buf.Length, out.Length)
    requires count > 0 && 8 + size <= s.cb && o == Select(d, buf[..], s.k + 2, size, count, s.cb2)
    modifies buf, out
    ensures PinDone(d, o, s, s', buf[..], old(buf[..]), out[..], old(out[..]))
  {
    hide Select, PinDone, DeviceOk, Placed, Filled, Flat, Mapped;
    ghost var w, q := buf[..], out[..];
    var to, e, all := Collect(d, buf, s.k, size, count, out, s.pf, s.cb2);
    PinTaken(d, o, s, buf[..], w, out[..], q, to, e);
    s' := Filled(s, to, e, all);
  }

  lemma Read(d: Device, w: seq<Unit>, s: Space, pin: Pin)
    requires Readable(pin, s.cb) && 2 * s.k + |pin.value| <= |w| && w[2 * s.k..2 * s.k + |pin.value|] == pin.value
    ensures Result(d, pin, s.cb, s.cb2) == Select(d, w, s.k + 2, 2 * |pin.value| - 8, Long(pin.value, 1), s.cb2)
  {
    hide Select, Long;
    SelectShift(d, w, s.k, pin.value, 2, 2 * |pin.value| - 8, Long(pin.value, 1), s.cb2);
  }

  lemma DoneFrom(d: Device, o: Outcome, s: Space, s': Space, b: seq<Unit>, w: seq<Unit>, w0: seq<Unit>, e: seq<Unit>,
                 v: seq<Unit>)
    requires PinDone(d, o, s, s', b, w, e, v) && |w| == |w0| && 2 * s.k <= |w| && w[..2 * s.k] == w0[..2 * s.k]
    ensures PinDone(d, o, s, s', b, w0, e, v)
  {
    hide Concat, Mapped;
    PlacedFrom(b, w, w0, 2 * s.k, Concat(Committed(o)), 2 * s'.k);
  }

  /** One pin. */
  method OnePin(d: Device, buf: array<Unit>, out: array<Unit>, s: Space, pin: Pin) returns (s': Space)
    requires DeviceOk(d) && buf != out && Inside(s, buf.Length, out.Length)
    modifies buf, out
    ensures PinDone(d, Result(d, pin, s.cb, s.cb2), s, s', buf[..], old(buf[..]), out[..], old(out[..]))
  {
    ghost var b, q := buf[..], out[..];
    hide Select, Long, PinDone, DeviceOk, Placed, Mapped;
    var count, size := Query(buf, s, pin);
    ghost var w := buf[..];
    if count == 0 {
      PinSkipped(d, s, w, b, q);
      return s;
    }
    Read(d, w, s, pin);
    hide Result, Readable;
    ghost var o := Result(d, pin, s.cb, s.cb2);
    s' := TakePin(d, buf, out, s, count, size, o);
    DoneFrom(d, o, s, s', buf[..], w, b, out[..], q);
  }

  // ---- The pins of one camera --------------------------------------------------------

  /** Several pins have left their committed ranges and all their entries. */
  ghost predicate PinsDone(d: Device, os: seq<Outcome>, s: Space, s': Space, b: seq<Unit>, w: seq<Unit>, e: seq<Unit>,
                           v: seq<Unit>) {
    && Placed(b, w, 2 * s.k, Concat(ServerRanges(os)), 2 * s'.k)
    && Placed(e, v, 2 * s.pf, Concat(ClientEntries(d, os)), 2 * s'.pf)
    && Advanced(s, s', |ServerRanges(os)|, |ClientEntries(d, os)|)
  }

  lemma {:induction false} ConcatBoth(xs: seq<seq<Unit>>, ys: seq<seq<Unit>>)
    ensures Concat(xs + ys) == Concat(xs) + Concat(ys)
  {
    if xs == [] {
      assert xs + ys == ys;
    } else {
      ConcatBoth(xs[1..], ys);
      assert (xs + ys)[1..] == xs[1..] + ys;
      assert Concat(xs + ys) == xs[0] + (Concat(xs[1..]) + Concat(ys));
    }
  }

  lemma {:induction false} RangesNext(os: seq<Outcome>, o: Outcome)
    ensures ServerRanges(os + [o]) == ServerRanges(os) + Committed(o)
  {
    if os == [] {
      assert os + [o] == [o] && [o][1..] == [];
    } else {
      RangesNext(os[1..], o);
      assert (os + [o])[1..] == os[1..] + [o];
    }
  }

  lemma {:induction false} EntriesNext(d: Device, os: seq<Outcome>, o: Outcome)
    ensures ClientEntries(d, os + [o]) == ClientEntries(d, os) + Mapped(d, o.0)
  {
    if os == [] {
      assert os + [o] == [o] && [o][1..] == [];
    } else {
      EntriesNext(d, os[1..], o);
      assert (os + [o])[1..] == os[1..] + [o];
    }
  }

  lemma PlacedBehind(b: seq<Unit>, w: seq<Unit>, v: seq<Unit>, from: nat, f: seq<Unit>, i: nat, g: seq<Unit>, to: nat)
    requires Placed(w, v, from, f, i) && Placed(b, w, i, g, to)
    ensures Placed(b, v, from, f + g, to)
  {
  }

  lemma PinsMore(d: Device, os: seq<Outcome>, o: Outcome, s: Space, s1: Space, s2: Space,
                 b: seq<Unit>, w: seq<Unit>, w0: seq<Unit>, e: seq<Unit>, v: seq<Unit>, v0: seq<Unit>)
    requires PinsDone(d, os, s, s1, w, w0, v, v0) && PinDone(d, o, s1, s2, b, w, e, v)
    ensures PinsDone(d, os + [o], s, s2, b, w0, e, v0)
  {
    hide Placed, Concat, ServerRanges, ClientEntries;
    RangesNext(os, o);
    EntriesNext(d, os, o);
    ConcatBoth(ServerRanges(os), Committed(o));
    ConcatBoth(ClientEntries(d, os), Mapped(d, o.0));
    hide Committed, Mapped;
    PlacedBehind(b, w, w0, 2 * s.k, Concat(ServerRanges(os)), 2 * s1.k, Concat(Committed(o)), 2 * s2.k);
    PlacedBehind(e, v, v0, 2 * s.pf, Concat(ClientEntries(d, os)), 2 * s1.pf, Concat(Mapped(d, o.0)), 2 * s2.pf);
  }

  ghost function Left(d: Device, pins: seq<Pin>, s: Space): seq<Outcome> {
    Outcomes(d, pins, s.cb, s.cb2)
  }

  lemma LeftStep(d: Device, pins: seq<Pin>, s: Space, s': Space, b: seq<Unit>, w: seq<Unit>, e: seq<Unit>, v: seq<Unit>)
    requires pins != [] && PinDone(d, Result(d, pins[0], s.cb, s.cb2), s, s', b, w, e, v)
    ensures Left(d, pins, s) == [Result(d, pins[0], s.cb, s.cb2)] + Left(d, pins[1..], s')
  {
    hide Result, Placed, Concat;
    var o := Result(d, pins[0], s.cb, s.cb2);
    assert s'.cb == (if o.1 then s.cb - RANGE_BYTES * |o.0| else s.cb) && s'.cb2 == s.cb2 - VFI_BYTES * |o.0|;
  }

  lemma DoneInside(d: Device, os: seq<Outcome>, s: Space, s': Space, b: seq<Unit>, w: seq<Unit>, e: seq<Unit>,
                   v: seq<Unit>)
    requires PinsDone(d, os, s, s', b, w, e, v) && Inside(s, |w|, |v|)
    ensures |b| == |w| && |e| == |v| && Inside(s', |b|, |e|)
  {
  }

  /** The pins done so far, and those left. */
  ghost predicate Collected(d: Device, pins: seq<Pin>, i: nat, os: seq<Outcome>, s0: Space, s: Space, b: seq<Unit>,
                            w: seq<Unit>, e: seq<Unit>, v: seq<Unit>)
  {
    && i <= |pins| && Inside(s, |b|, |e|) && Inside(s0, |w|, |v|) && PinsDone(d, os, s0, s, b, w, e, v)
    && os + Left(d, pins[i..], s) == Left(d, pins, s0)
  }

  lemma CollectedFirst(d: Device, pins: seq<Pin>, s: Space, w: seq<Unit>, v: seq<Unit>)
    requires Inside(s, |w|, |v|)
    ensures Collected(d, pins, 0, [], s, s, w, w, v, v)
  {
    assert pins[0..] == pins;
    NothingPlaced(w, w, 2 * s.k);
    NothingPlaced(v, v, 2 * s.pf);
    hide Outcomes, Placed;
  }

  lemma CollectedNext(d: Device, pins: seq<Pin>, i: nat, os: seq<Outcome>, o: Outcome, s0: Space, s: Space, s': Space,
                      b: seq<Unit>, x: seq<Unit>, w: seq<Unit>, e: seq<Unit>, y: seq<Unit>, v: seq<Unit>)
    requires Collected(d, pins, i, os, s0, s, x, w, y, v) && i < |pins|
    requires o == Result(d, pins[i], s.cb, s.cb2) && PinDone(d, o, s, s', b, x, e, y)
    ensures Collected(d, pins, i + 1, os + [o], s0, s', b, w, e, v)
  {
    assert pins[i..][0] == pins[i] && pins[i..][1..] == pins[i + 1..];
    hide PinsDone, PinDone, Inside, Result, Left;
    LeftStep(d, pins[i..], s, s', b, x, e, y);
    PinsMore(d, os, o, s0, s, s', b, x, w, e, y, v);
    DoneInside(d, os + [o], s0, s', b, w, e, v);
    assert os + ([o] + Left(d, pins[i + 1..], s')) == os + [o] + Left(d, pins[i + 1..], s');
  }

  lemma CollectedAll(d: Device, pins: seq<Pin>, os: seq<Outcome>, s0: Space, s: Space, b: seq<Unit>,
                     w: seq<Unit>, e: seq<Unit>, v: seq<Unit>)
    requires Collected(d, pins, |pins|, os, s0, s, b, w, e, v)
    ensures PinsDone(d, Outcomes(d, pins, s0.cb, s0.cb2), s0, s, b, w, e, v)
  {
    NoneLeft(d, pins[|pins|..], s);
    assert os == os + Left(d, pins[|pins|..], s);
    hide PinsDone, Outcomes;
  }

  /** All pins of a camera, sharing the buffer and the room for entries. */
  method CollectPins(d: Device, buf: array<Unit>, out: array<Unit>, s0: Space, pins: seq<Pin>) returns (s: Space)
    requires DeviceOk(d) && buf != out && Inside(s0, buf.Length, out.Length)
    modifies buf, out
    ensures PinsDone(d, Outcomes(d, pins, s0.cb, s0.cb2), s0, s, buf[..], old(buf[..]), out[..], old(out[..]))
  {
    ghost var w, v := buf[..], out[..];
    ghost var os: seq<Outcome> := [];
    s := s0;
    var i: nat := 0;
    CollectedFirst(d, pins, s, w, v);
    hide PinsDone, PinDone, DeviceOk, Result, Outcomes, Left;
    while i < |pins|
      invariant Collected(d, pins, i, os, s0, s, buf[..], w, out[..], v)
    {
      ghost var x, y, was := buf[..], out[..], s;
      ghost var o := Result(d, pins[i], s.cb, s.cb2);
      s := OnePin(d, buf, out, s, pins[i]);
      CollectedNext(d, pins, i, os, o, s0, was, s, buf[..], x, w, out[..], y, v);
      os, i := os + [o], i + 1;
    }
    CollectedAll(d, pins, os, s0, s, buf[..], w, out[..], v);
  }

  lemma NoneLeft(d: Device, pins: seq<Pin>, s: Space)
    requires pins == []
    ensures Left(d, pins, s) == []
  {
  }
}
