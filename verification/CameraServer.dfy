/** The server's own list: the in-place selection of a pin's data ranges, the lookup of the range
    a client asks for, and its agreement with the list the client sees. */
module CameraServer {
  import opened Words
  import opened CameraList

  /** `KS_DATARANGE_VIDEO` and the least data range, in 32-bit words and bytes. */
  const RANGE_WORDS: nat := 74
  const RANGE_BYTES: nat := 296
  const LEAST_BYTES: nat := 64
  const VFI_BYTES: nat := 8
  const MIN_LONG: nat := 0x8000_0000

  type Range = r: seq<Unit> | |r| == 2 * RANGE_WORDS witness seq(2 * RANGE_WORDS, _ => 0)

  /** What the device code decides: whether a range is usable and the entry made from it. */
  datatype Device = Device(wanted: seq<Unit> -> bool, entry: seq<Unit> -> seq<Unit>)

  ghost predicate DeviceOk(d: Device) {
    forall r :: |d.entry(r)| == ENTRY
  }

  function Mapped(d: Device, rs: seq<seq<Unit>>): (es: seq<seq<Unit>>)
    ensures |es| == |rs| && forall k :: 0 <= k < |rs| ==> es[k] == d.entry(rs[k])
  {
    seq(|rs|, k requires 0 <= k < |rs| => d.entry(rs[k]))
  }

  // ---- Selecting the ranges of one pin -----------------------------------------------

  /** A size rounded up to the alignment of a data range, in 32 bits. */
  function Rounded(bytes: nat): (n: nat)
    ensures n % 8 == 0 && (bytes < ULONG_RANGE - 7 ==> bytes <= n < bytes + 8)
  {
    U32(bytes + 7) / 8 * 8
  }

  /** Whether a data range at word k is kept. */
  predicate Wanted(d: Device, w: seq<Unit>, k: nat, size: nat)
    requires LEAST_BYTES <= size && 4 * k + size <= 2 * |w| && Rounded(Long(w, k)) <= size
  {
    Long(w, k) == RANGE_BYTES && d.wanted(w[2 * k..2 * (k + RANGE_WORDS)])
  }

  /** The ranges kept from `count` data ranges at word k, with `room` bytes left for entries, and
      whether all of them were read. */
  function Select(d: Device, w: seq<Unit>, k: nat, size: nat, count: nat, room: nat): (r: (seq<seq<Unit>>, bool))
    requires 4 * k + size <= 2 * |w| && count > 0
    ensures forall i :: 0 <= i < |r.0| ==> |r.0[i]| == 2 * RANGE_WORDS
    ensures VFI_BYTES * |r.0| <= room && RANGE_BYTES * |r.0| <= size
    ensures forall i :: 0 <= i < |r.0| ==> Long(r.0[i], 0) == RANGE_BYTES
    decreases count
  {
    if size < LEAST_BYTES || Long(w, k) < LEAST_BYTES || size < Rounded(Long(w, k)) then ([], false)
    else
      var n := Rounded(Long(w, k));
      var keep := Wanted(d, w, k, size);
      if keep && room < VFI_BYTES then ([], false)
      else
        var rest :=
          if count == 1 then ([], true)
          else Select(d, w, k + n / 4, size - n, count - 1, if keep then room - VFI_BYTES else room);
        (if keep then [w[2 * k..2 * (k + RANGE_WORDS)]] + rest.0 else rest.0, rest.1)
  }

  function Flat(items: seq<seq<Unit>>): seq<Unit> {
    if items == [] then [] else Flat(items[..|items| - 1]) + items[|items| - 1]
  }

  lemma FlatNext(d: Device, got: seq<seq<Unit>>, x: seq<Unit>)
    ensures Flat(got + [x]) == Flat(got) + x
    ensures Mapped(d, got + [x]) == Mapped(d, got) + [d.entry(x)]
    ensures Flat(Mapped(d, got + [x])) == Flat(Mapped(d, got)) + d.entry(x)
  {
    assert (got + [x])[..|got|] == got;
    assert (Mapped(d, got) + [d.entry(x)])[..|got|] == Mapped(d, got);
  }

  lemma {:induction false} FlatSize(items: seq<seq<Unit>>, size: nat, n: nat)
    requires n == |items| && forall i :: 0 <= i < n ==> |items[i]| == size
    ensures |Flat(items)| == Times(size, n)
  {
    if n > 0 {
      FlatSize(items[..n - 1], size, n - 1);
    }
  }

  function Times(size: nat, n: nat): nat {
    if n == 0 then 0 else Times(size, n - 1) + size
  }

  /** Copies n characters to a place before or at the source; the ranges may overlap. */
  method Move(buf: array<Unit>, to: nat, from: nat, n: nat)
    requires to <= from && from + n <= buf.Length
    modifies buf
    ensures buf[to..to + n] == old(buf[from..from + n])
    ensures buf[..to] == old(buf[..to]) && buf[from + n..] == old(buf[from + n..])
  {
    forall i | 0 <= i < n {
      buf[to + i] := buf[from + i];
    }
  }

  method Write(buf: array<Unit>, to: nat, e: seq<Unit>)
    requires to + |e| <= buf.Length
    modifies buf
    ensures buf[to..to + |e|] == e && buf[..to] == old(buf[..to])
  {
    forall i | 0 <= i < |e| {
      buf[to + i] := e[i];
    }
  }

  /** What the selection has put in place: the prefix up to `from` is untouched, behind it lies
      f, and `to` is behind that. */
  ghost predicate Placed(buf: seq<Unit>, before: seq<Unit>, from: nat, f: seq<Unit>, to: nat) {
    from + |f| == to <= |buf| == |before| && buf[..to] == before[..from] + f
  }

  lemma PlacedMore(buf: seq<Unit>, was: seq<Unit>, before: seq<Unit>, from: nat, f: seq<Unit>, to: nat, x: seq<Unit>)
    requires Placed(was, before, from, f, to) && |buf| == |was| && to + |x| <= |buf|
    requires buf[..to] == was[..to] && buf[to..to + |x|] == x
    ensures Placed(buf, before, from, f + x, to + |x|)
  {
    assert buf[..to + |x|] == buf[..to] + buf[to..to + |x|];
  }

  /** One kept range: moved down behind the ranges kept so far, its entry appended. */
  method Keep(d: Device, buf: array<Unit>, ghost from: nat, to: nat, at: nat, out: array<Unit>, ghost pf: nat, e: nat,
              ghost w: seq<Unit>, ghost o: seq<Unit>, ghost got: seq<seq<Unit>>)
    requires DeviceOk(d) && buf != out && to <= at && at + 2 * RANGE_WORDS <= buf.Length && e + ENTRY <= out.Length
    requires Placed(buf[..], w, from, Flat(got), to) && Placed(out[..], o, pf, Flat(Mapped(d, got)), e)
    modifies buf, out
    ensures var x := old(buf[at..at + 2 * RANGE_WORDS]);
            && Placed(buf[..], w, from, Flat(got + [x]), to + 2 * RANGE_WORDS)
            && Placed(out[..], o, pf, Flat(Mapped(d, got + [x])), e + ENTRY)
    ensures buf[at + 2 * RANGE_WORDS..] == old(buf[at + 2 * RANGE_WORDS..])
  {
    ghost var b, q := buf[..], out[..];
    var x := buf[at..at + 2 * RANGE_WORDS];
    var entry := d.entry(x);
    assert |entry| == ENTRY;
    hide *;
    FlatNext(d, got, x);
    Write(out, e, entry);
    PlacedMore(out[..], q, o, pf, Flat(Mapped(d, got)), e, entry);
    Move(buf, to, at, |x|);
    PlacedMore(buf[..], b, w, from, Flat(got), to, x);
  }

  lemma TailSame(b: seq<Unit>, w: seq<Unit>, k: nat, n: nat)
    requires |b| == |w| && 2 * k + n <= |w| && b[2 * k..] == w[2 * k..]
    ensures n >= 2 ==> Long(b, k) == Long(w, k)
    ensures b[2 * k..2 * k + n] == w[2 * k..2 * k + n] && b[2 * k + n..] == w[2 * k + n..]
  {
    var tail := w[2 * k..];
    assert n >= 2 ==> b[2 * k] == tail[0] && b[2 * k + 1] == tail[1];
    assert b[2 * k..2 * k + n] == tail[..n] == w[2 * k..2 * k + n];
    assert b[2 * k + n..] == tail[n..] == w[2 * k + n..];
  }

  /** One round of the selection. */
  lemma SelectStep(d: Device, w: seq<Unit>, k: nat, size: nat, count: nat, room: nat)
    requires 4 * k + size <= 2 * |w| && count > 0
    ensures var r := Select(d, w, k, size, count, room);
            if size < LEAST_BYTES || Long(w, k) < LEAST_BYTES || size < Rounded(Long(w, k)) then r == ([], false)
            else
              var n, keep := Rounded(Long(w, k)), Wanted(d, w, k, size);
              if keep && room < VFI_BYTES then r == ([], false)
              else
                var rest := if count == 1 then ([], true)
                            else Select(d, w, k + n / 4, size - n, count - 1, if keep then room - VFI_BYTES else room);
                r.1 == rest.1 && r.0 == if keep then [w[2 * k..2 * (k + RANGE_WORDS)]] + rest.0 else rest.0
  {
    hide Rounded, Wanted, Long;
  }

  /** The running variables: the data range at hand, the bytes and ranges left, the room for
      entries, and where the next kept range and entry go. */
  datatype Cursor = Cursor(at: nat, left: nat, cnt: nat, room: nat, to: nat, e: nat)

  ghost predicate Running(d: Device, buf: seq<Unit>, out: seq<Unit>, w: seq<Unit>, o: seq<Unit>, from: nat, pf: nat,
                          got: seq<seq<Unit>>, c: Cursor)
  {
    && c.cnt > 0 && 4 * c.at + c.left <= 2 * |buf| && c.to + 4 <= 2 * c.at && 2 * c.e + c.room <= 2 * |out|
    && |buf| == |w| && buf[2 * c.at..] == w[2 * c.at..]
    && Placed(buf, w, from, Flat(got), c.to) && Placed(out, o, pf, Flat(Mapped(d, got)), c.e)
  }

  ghost function Selected(d: Device, w: seq<Unit>, c: Cursor): (seq<seq<Unit>>, bool)
    requires 4 * c.at + c.left <= 2 * |w| && c.cnt > 0
  {
    Select(d, w, c.at, c.left, c.cnt, c.room)
  }

  /** One data range. */
  method Round(d: Device, buf: array<Unit>, out: array<Unit>, c: Cursor,
               ghost w: seq<Unit>, ghost o: seq<Unit>, ghost from: nat, ghost pf: nat, ghost got: seq<seq<Unit>>)
    returns (c': Cursor, more: bool, all: bool, ghost got': seq<seq<Unit>>)
    requires DeviceOk(d) && buf != out && Running(d, buf[..], out[..], w, o, from, pf, got, c)
    modifies buf, out
    ensures Placed(buf[..], w, from, Flat(got'), c'.to) && Placed(out[..], o, pf, Flat(Mapped(d, got')), c'.e)
    ensures more ==>
              && Running(d, buf[..], out[..], w, o, from, pf, got', c') && c'.cnt < c.cnt
              && got + Selected(d, w, c).0 == got' + Selected(d, w, c').0 && Selected(d, w, c).1 == Selected(d, w, c').1
    ensures !more ==> got' == got + Selected(d, w, c).0 && all == Selected(d, w, c).1
  {
    hide Select, Wanted, Placed, Flat, Mapped, Rounded, DeviceOk, Long;
    c', more, all, got' := c, false, false, got;
    SelectStep(d, w, c.at, c.left, c.cnt, c.room);
    if c.left < LEAST_BYTES {
      return;
    }
    TailSame(buf[..], w, c.at, 2);
    var format := Long(buf[..], c.at);
    var n := Rounded(format);
    if format < LEAST_BYTES || c.left < n {
      return;
    }
    WantedSame(d, buf[..], w, c.at, c.left);
    TailSame(buf[..], w, c.at, n / 2);
    var room, to, e := c.room, c.to, c.e;
    if Wanted(d, buf[..], c.at, c.left) {
      if room < VFI_BYTES {
        return;
      }
      ghost var x := w[2 * c.at..2 * (c.at + RANGE_WORDS)];
      Keep(d, buf, from, to, 2 * c.at, out, pf, e, w, o, got);
      room, to, e, got' := room - VFI_BYTES, to + 2 * RANGE_WORDS, e + ENTRY, got + [x];
    }
    all, more := c.cnt == 1, c.cnt != 1;
    c' := Cursor(c.at + n / 4, c.left - n, c.cnt - 1, room, to, e);
  }

  lemma WantedSame(d: Device, b: seq<Unit>, w: seq<Unit>, k: nat, size: nat)
    requires |b| == |w| && LEAST_BYTES <= size && 4 * k + size <= 2 * |w| && b[2 * k..] == w[2 * k..]
    requires Rounded(Long(w, k)) <= size
    ensures Rounded(Long(b, k)) <= size && Wanted(d, b, k, size) == Wanted(d, w, k, size)
    ensures Wanted(d, w, k, size) ==>
              && Rounded(Long(w, k)) == RANGE_BYTES && 2 * (k + RANGE_WORDS) <= |w|
              && b[2 * k..2 * (k + RANGE_WORDS)] == w[2 * k..2 * (k + RANGE_WORDS)]
  {
    TailSame(b, w, k, 2);
    if Long(w, k) == RANGE_BYTES {
      TailSame(b, w, k, 2 * RANGE_WORDS);
    }
    hide Long;
  }

  /** The selection in place: kept ranges are moved down over the pin's header and over dropped
      ranges, and their entries are appended to the client's list. */
  method Collect(d: Device, buf: array<Unit>, k: nat, size: nat, count: nat, out: array<Unit>, pf: nat, room: nat)
    returns (to: nat, e: nat, all: bool)
    requires DeviceOk(d) && buf != out && count > 0
    requires 4 * (k + 2) + size <= 2 * buf.Length && 4 * pf + room <= 2 * out.Length
    modifies buf, out
    ensures var r := Select(d, old(buf[..]), k + 2, size, count, room);
            && all == r.1
            && Placed(buf[..], old(buf[..]), 2 * k, Flat(r.0), to)
            && Placed(out[..], old(out[..]), 2 * pf, Flat(Mapped(d, r.0)), e)
  {
    ghost var w, o := buf[..], out[..];
    ghost var got: seq<seq<Unit>> := [];
    var c := Cursor(k + 2, size, count, room, 2 * k, 2 * pf);
    ghost var whole := Selected(d, w, c);
    var more := true;
    all := false;
    assert Running(d, buf[..], out[..], w, o, 2 * k, 2 * pf, got, c);
    hide Select, Selected, Placed, Flat, Mapped, DeviceOk;
    while more
      invariant Placed(buf[..], w, 2 * k, Flat(got), c.to) && Placed(out[..], o, 2 * pf, Flat(Mapped(d, got)), c.e)
      invariant more ==>
                  && Running(d, buf[..], out[..], w, o, 2 * k, 2 * pf, got, c)
                  && whole.0 == got + Selected(d, w, c).0 && whole.1 == Selected(d, w, c).1
      invariant !more ==> got == whole.0 && all == whole.1
      decreases more, c.cnt
    {
      c, more, all, got := Round(d, buf, out, c, w, o, 2 * k, 2 * pf, got);
    }
    to, e := c.to, c.e;
  }

  // ---- Well-formed device data -------------------------------------------------------

  /** A data range as the device lays it out: its announced size, rounded up. */
  predicate RangeOk(r: seq<Unit>) {
    |r| >= 2 && LEAST_BYTES <= Long(r, 0) < ULONG_RANGE - 7 && 2 * |r| == Rounded(Long(r, 0))
  }

  predicate PinLaid(w: seq<Unit>, k: nat, rs: seq<seq<Unit>>)
    decreases |rs|
  {
    rs == [] ||
    (RangeOk(rs[0]) && 2 * k + |rs[0]| <= |w| && w[2 * k..2 * k + |rs[0]|] == rs[0]
        && PinLaid(w, k + |rs[0]| / 2, rs[1..]))
  }

  function TotalBytes(rs: seq<seq<Unit>>): nat {
    if rs == [] then 0 else 2 * |rs[0]| + TotalBytes(rs[1..])
  }

  predicate Usable(d: Device, r: seq<Unit>)
    requires RangeOk(r)
  {
    Long(r, 0) == RANGE_BYTES && d.wanted(r)
  }

  predicate RangesOk(rs: seq<seq<Unit>>) {
    forall i :: 0 <= i < |rs| ==> RangeOk(rs[i])
  }

  function Filter(d: Device, rs: seq<seq<Unit>>): seq<seq<Unit>>
    requires RangesOk(rs)
  {
    if rs == [] then [] else (if Usable(d, rs[0]) then [rs[0]] else []) + Filter(d, rs[1..])
  }

  lemma {:induction false} LaidOk(w: seq<Unit>, k: nat, rs: seq<seq<Unit>>)
    requires PinLaid(w, k, rs)
    ensures RangesOk(rs)
    ensures 4 * k + TotalBytes(rs) <= 2 * |w| || rs == []
    decreases |rs|
  {
    hide RangeOk;
    if rs != [] {
      LaidOk(w, k + |rs[0]| / 2, rs[1..]);
      WholeWords(rs[0]);
    }
  }

  lemma WholeWords(r: seq<Unit>)
    requires RangeOk(r)
    ensures |r| % 4 == 0 && |r| >= 32
    ensures Long(r, 0) == RANGE_BYTES ==> |r| == 2 * RANGE_WORDS
  {
  }

  lemma LaidFirst(d: Device, w: seq<Unit>, k: nat, r: seq<Unit>, size: nat)
    requires RangeOk(r) && 2 * k + |r| <= |w| && w[2 * k..2 * k + |r|] == r && 2 * |r| <= size
             && 4 * k + size <= 2 * |w|
    ensures Long(w, k) == Long(r, 0) && Rounded(Long(w, k)) == 2 * |r| && LEAST_BYTES <= size
    ensures Wanted(d, w, k, size) == Usable(d, r)
    ensures Usable(d, r) ==> w[2 * k..2 * (k + RANGE_WORDS)] == r
  {
    WholeWords(r);
    assert w[2 * k] == r[0] && w[2 * k + 1] == r[1];
    hide Rounded;
  }

  lemma LaidStep(d: Device, w: seq<Unit>, k: nat, rs: seq<seq<Unit>>)
    requires PinLaid(w, k, rs) && rs != [] && RangesOk(rs)
    ensures var r, rest := rs[0], rs[1..];
            && RangeOk(r) && RangesOk(rest) && 2 * k + |r| <= |w| && w[2 * k..2 * k + |r|] == r
            && PinLaid(w, k + |r| / 2, rest) && 4 * (k + |r| / 2) == 4 * k + 2 * |r|
            && Filter(d, rs) == (if Usable(d, r) then [r] else []) + Filter(d, rest)
            && TotalBytes(rs) == 2 * |r| + TotalBytes(rest)
            && (|rs| == 1 ==> TotalBytes(rest) == 0 && Filter(d, rest) == [])
  {
    assert RangeOk(rs[0]) && RangesOk(rs[1..]);
    WholeWords(rs[0]);
    hide RangeOk, Usable;
  }

  /** On well-formed data with room for the entries, the selection is a filter of all ranges. */
  lemma {:induction false} SelectIsFilter(d: Device, w: seq<Unit>, k: nat, rs: seq<seq<Unit>>, size: nat, room: nat)
    requires PinLaid(w, k, rs) && rs != [] && size == TotalBytes(rs) && 4 * k + size <= 2 * |w|
    requires RangesOk(rs) && VFI_BYTES * |Filter(d, rs)| <= room
    ensures Select(d, w, k, size, |rs|, room) == (Filter(d, rs), true)
    decreases |rs|
  {
    hide RangeOk, RangesOk, Select, Wanted, Usable, Rounded, Long, Filter, TotalBytes, PinLaid;
    LaidStep(d, w, k, rs);
    var r, rest := rs[0], rs[1..];
    LaidFirst(d, w, k, r, size);
    SelectStep(d, w, k, size, |rs|, room);
    RangeHeader(r);
    if |rs| > 1 {
      SelectIsFilter(d, w, k + |r| / 2, rest, size - 2 * |r|, if Usable(d, r) then room - VFI_BYTES else room);
    }
    var got := Select(d, w, k, size, |rs|, room);
    assert got.0 == Filter(d, rs) && got.1;
  }

  lemma RangeHeader(r: seq<Unit>)
    requires RangeOk(r)
    ensures |r| >= 2 && Long(r, 0) >= LEAST_BYTES && 2 * |r| / 4 == |r| / 2
  {
  }
}
