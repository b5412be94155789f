/** `CreateInfo` over all cameras: what both lists then contain. */
module CameraCreate {
  import opened Words
  import opened CameraList
  import opened CameraServer
  import opened CameraPins
  import opened CameraLookup
  import opened CameraLayout
  import opened CameraInfo

  /** A camera as the system describes it: its device path, its friendly name if there is one, and
      the answers of its pins, the last pin first; no pins if the device cannot be opened. */
  datatype Source = Source(path: seq<Unit>, name: Option<seq<Unit>>, pins: seq<Pin>)

  const STAR: seq<Unit> := [0x2a]

  /** A friendly name is a string; it may be empty. */
  predicate SourceOk(c: Source) {
    c.name.Some? ==> 0 !in c.name.value
  }

  // ---- What the lists contain --------------------------------------------------------

  /** The name shown for a camera: its friendly name if it fits, or else a star if that fits. */
  function Shown(c: Source, cb2: nat): Option<seq<Unit>> {
    if c.name.Some? && 2 * (|c.name.value| + 1) <= cb2 then c.name
    else if cb2 < 4 then None
    else Some(STAR)
  }

  /** Buffers of n and m characters, both aligned; the server's list is filled up to character i
      and the client's up to word p. */
  predicate Room(i: nat, p: nat, n: nat, m: nat) {
    n % 4 == 0 && m % 2 == 0 && i <= n && 2 * p <= m
  }

  /** The aligned space behind a name. */
  function Start(name: seq<Unit>, i: nat, p: nat, n: nat, m: nat): (s: Space)
    requires Room(i, p, n, m) && 2 * p + |name| + 1 <= m
    ensures Inside(s, n, m) && s.cb == 2 * n - 4 * s.k && s.cb2 == 2 * m - 4 * s.pf
  {
    var k, pf := UpRange(i), Up(2 * p + |name| + 1);
    Space(k, 2 * n - 4 * k, pf, 2 * m - 4 * pf)
  }

  lemma {:induction false} KeptSized(d: Device, pins: seq<Pin>, cb: nat, room: nat)
    ensures forall r :: r in ServerRanges(Outcomes(d, pins, cb, room)) ==> |r| == 2 * RANGE_WORDS && Long(r, 0) != 0
  {
    hide Result, Long;
    if pins != [] {
      var o := Result(d, pins[0], cb, room);
      KeptSized(d, pins[1..], if o.1 then cb - RANGE_BYTES * |o.0| else cb, room - VFI_BYTES * |o.0|);
    }
  }

  /** The ranges the server keeps of a camera. */
  function Kept(d: Device, pins: seq<Pin>, s: Space): (rs: seq<Range>)
    ensures rs == ServerRanges(Outcomes(d, pins, s.cb, s.cb2)) && forall r :: r in rs ==> Long(r, 0) != 0
  {
    KeptSized(d, pins, s.cb, s.cb2);
    ServerRanges(Outcomes(d, pins, s.cb, s.cb2))
  }

  /** What one camera adds to the client's and to the server's list. */
  datatype Listed = Listed(camera: Camera, ranges: seq<Range>)

  /** None if there is no room for it. */
  function Listing(d: Device, c: Source, i: nat, p: nat, n: nat, m: nat): Option<Listed>
    requires Room(i, p, n, m)
  {
    var name := Shown(c, 2 * m - 4 * p);
    if name == None then None
    else
      var s := Start(name.value, i, p, n, m);
      var rs, es := Kept(d, c.pins, s), ClientEntries(d, Outcomes(d, c.pins, s.cb, s.cb2));
      if s.cb < RANGE_BYTES * |rs| + 4 || s.cb2 < VFI_BYTES * |es| + 4 then None
      else Some(Listed(Camera(name.value, es), rs))
  }

  function RangesBehind(i: nat, rs: seq<Range>): nat {
    2 * (UpRange(i) + RANGE_WORDS * |rs|) + 2
  }

  lemma ListingRoom(d: Device, c: Source, i: nat, p: nat, n: nat, m: nat)
    requires Room(i, p, n, m) && Listing(d, c, i, p, n, m).Some?
    ensures var l := Listing(d, c, i, p, n, m).value;
            Room(RangesBehind(i, l.ranges), Behind(l.camera, p), n, m)
  {
    hide Kept, ClientEntries, Outcomes, Shown;
  }

  /** What all cameras add; None if a buffer is exhausted. */
  function Listings(d: Device, cs: seq<Source>, i: nat, p: nat, n: nat, m: nat): (r: Option<seq<Listed>>)
    requires Room(i, p, n, m)
    ensures r.Some? ==> |r.value| == |cs|
    decreases |cs|
  {
    if cs == [] then (if 2 * m - 4 * p < 4 then None else Some([]))
    else
      var l := Listing(d, cs[0], i, p, n, m);
      if l == None then None
      else
        ListingRoom(d, cs[0], i, p, n, m);
        Before([l.value], Listings(d, cs[1..], RangesBehind(i, l.value.ranges), Behind(l.value.camera, p), n, m))
  }

  /** The cameras already listed, in front of the rest. */
  function Before(done: seq<Listed>, rest: Option<seq<Listed>>): Option<seq<Listed>> {
    if rest == None then None else Some(done + rest.value)
  }

  function Cameras(ls: seq<Listed>): (cs: seq<Camera>)
    ensures |cs| == |ls| && forall m :: 0 <= m < |ls| ==> cs[m] == ls[m].camera
  {
    seq(|ls|, m requires 0 <= m < |ls| => ls[m].camera)
  }

  function Ranges(ls: seq<Listed>): (rss: seq<seq<Range>>)
    ensures |rss| == |ls| && forall m :: 0 <= m < |ls| ==> rss[m] == ls[m].ranges
  {
    seq(|ls|, m requires 0 <= m < |ls| => ls[m].ranges)
  }

  // ---- One camera in place -----------------------------------------------------------

  /** The server's position in characters, the client's in words, and the bytes behind each. */
  datatype Place = Place(i: nat, cb: nat, p: nat, cb2: nat)

  predicate Exact(a: Place, n: nat, m: nat) {
    Room(a.i, a.p, n, m) && 2 * a.i + a.cb == 2 * n && 4 * a.p + a.cb2 == 2 * m
  }

  /** The friendly name where it fits, or else a star. */
  method PutName(out: array<Unit>, a: Place, c: Source) returns (name: Option<seq<Unit>>)
    requires SourceOk(c) && 4 * a.p + a.cb2 == 2 * out.Length
    modifies out
    ensures name == Shown(c, a.cb2)
    ensures c.name.Some? && 2 * (|c.name.value| + 1) <= a.cb2 ==> name == c.name
    ensures !(c.name.Some? && 2 * (|c.name.value| + 1) <= a.cb2) ==> name == if a.cb2 < 4 then None else Some([0x2a])
    ensures name.Some? ==>
              && 0 !in name.value && 2 * a.p + |name.value| + 1 <= out.Length
              && out[..2 * a.p] == old(out[..2 * a.p]) && StringAt(out[..], 2 * a.p, name.value)
  {
    if c.name.Some? && 2 * (|c.name.value| + 1) <= a.cb2 {
      name := c.name;
    } else {
      if a.cb2 < 4 {
        return None;
      }
      name := Some(STAR);
    }
    Write(out, 2 * a.p, name.value + [0]);
    assert out[2 * a.p + |name.value|] == out[2 * a.p..2 * a.p + |name.value| + 1][|name.value|];
    assert out[2 * a.p..2 * a.p + |name.value|] == out[2 * a.p..2 * a.p + |name.value| + 1][..|name.value|];
    StringLaid(out[..], 2 * a.p, name.value);
  }

  method PutZero(w: array<Unit>, k: nat)
    requires 2 * k + 2 <= w.Length
    modifies w
    ensures w[..2 * k] == old(w[..2 * k]) && Long(w[..], k) == 0
  {
    w[2 * k], w[2 * k + 1] := 0, 0;
  }

  lemma ItemsPut(b: seq<Unit>, v: seq<Unit>, w: seq<Unit>, k: nat, size: nat, items: seq<seq<Unit>>, e: nat)
    requires Placed(v, w, 2 * k, Concat(items), 2 * e) && Sized(items, 2 * size)
    requires |b| == |v| && 2 * e <= |b| && b[..2 * e] == v[..2 * e]
    ensures k <= e && ItemsAt(b, k, size, items) && b[..2 * k] == w[..2 * k]
  {
    hide Concat, ItemsAt, Sized;
    var c := Concat(items);
    assert b[2 * k..2 * e] == b[..2 * e][2 * k..] == c;
    assert b[..2 * k] == b[..2 * e][..2 * k];
    ItemsLaid(b, k, size, items);
  }

  lemma RangesPut(b: seq<Unit>, v: seq<Unit>, w: seq<Unit>, k: nat, rs: seq<Range>, e: nat)
    requires Placed(v, w, 2 * k, Concat(rs), 2 * e) && e == k + RANGE_WORDS * |rs| && |b| == |v| && 2 * e + 2 <= |b|
    requires b[..2 * e] == v[..2 * e] && Long(b, e) == 0 && forall r :: r in rs ==> Long(r, 0) != 0
    ensures RangesOf(b, k, rs, e) && b[..2 * k] == w[..2 * k]
  {
    hide Long, Concat, Placed, ItemsAt;
    ItemsPut(b, v, w, k, RANGE_WORDS, rs, e);
  }

  lemma CameraPut(b: seq<Unit>, v: seq<Unit>, w: seq<Unit>, p: nat, c: Camera, e: nat)
    requires CameraMade(c) && StringAt(w, 2 * p, c.name) && |w| == |v|
    requires Placed(v, w, 2 * EntriesAt(c, p), Concat(c.entries), 2 * e) && e + 1 == Behind(c, p)
    requires |b| == |v| && 2 * e + 2 <= |b| && b[..2 * e] == v[..2 * e] && Long(b, e) == 0
    ensures CameraAt(b, p, c) && b[..2 * p] == w[..2 * p]
  {
    var k := EntriesAt(c, p);
    assert Sized(c.entries, 2 * ENTRY_WORDS);
    hide Long, Concat, StringAt, Placed, ItemsAt, EntriesSized, Sized;
    ItemsPut(b, v, w, k, ENTRY_WORDS, c.entries, e);
    StringFrame(w, b, 2 * p, c.name, 2 * k);
    assert b[..2 * p] == b[..2 * k][..2 * p];
  }

  lemma {:induction false} ClientEntriesSized(d: Device, os: seq<Outcome>)
    requires DeviceOk(d)
    ensures EntriesSized(ClientEntries(d, os))
  {
    if os != [] {
      ClientEntriesSized(d, os[1..]);
    }
  }

  /** A camera is in both lists behind place a, and nothing before it has changed. */
  ghost predicate Put(l: Listed, a: Place, a': Place, b: seq<Unit>, w: seq<Unit>, e: seq<Unit>, v: seq<Unit>) {
    && a'.i == RangesBehind(a.i, l.ranges) && a'.p == Behind(l.camera, a.p) && a.i <= |w| == |b|
    && 2 * a.p <= |v| == |e|
    && RangesOf(b, UpRange(a.i), l.ranges, UpRange(a.i) + RANGE_WORDS * |l.ranges|) && b[..a.i] == w[..a.i]
    && CameraAt(e, a.p, l.camera) && e[..2 * a.p] == v[..2 * a.p]
  }

  lemma PutMoves(l: Listed, a: Place, a': Place, b: seq<Unit>, w: seq<Unit>, e: seq<Unit>, v: seq<Unit>)
    requires Put(l, a, a', b, w, e, v)
    ensures a'.i == RangesBehind(a.i, l.ranges) && a'.p == Behind(l.camera, a.p)
  {
  }

  lemma PutFrom(l: Listed, a: Place, a': Place, b: seq<Unit>, w: seq<Unit>, e: seq<Unit>, v: seq<Unit>, v0: seq<Unit>)
    requires Put(l, a, a', b, w, e, v) && |v0| == |v| && 2 * a.p <= |v| && v[..2 * a.p] == v0[..2 * a.p]
    ensures Put(l, a, a', b, w, e, v0)
  {
    hide RangesOf, CameraAt;
  }

  /** What the pins and the zero word leave of the ranges. */
  lemma ServerPut(d: Device, pins: seq<Pin>, a: Place, s: Space, s': Space, b: seq<Unit>, x: seq<Unit>, w: seq<Unit>)
    requires s.k == UpRange(a.i) && a.i <= |w|
    requires Placed(x, w, 2 * s.k, Concat(Kept(d, pins, s)), 2 * s'.k)
    requires s'.k == s.k + RANGE_WORDS * |Kept(d, pins, s)|
    requires |b| == |x| && 2 * s'.k + 2 <= |b| && b[..2 * s'.k] == x[..2 * s'.k] && Long(b, s'.k) == 0
    ensures |b| == |w| && 2 * s'.k + 2 == RangesBehind(a.i, Kept(d, pins, s)) && b[..a.i] == w[..a.i]
    ensures RangesOf(b, s.k, Kept(d, pins, s), s'.k)
  {
    var rs := Kept(d, pins, s);
    assert forall r :: r in rs ==> Long(r, 0) != 0;
    hide Long, Concat, Kept, RangesOf, UpRange;
    RangesPut(b, x, w, s.k, rs, s'.k);
    assert b[..a.i] == b[..2 * s.k][..a.i];
  }

  lemma PlacedBounds(b: seq<Unit>, w: seq<Unit>, k: nat, f: seq<Unit>, e: nat)
    requires Placed(b, w, 2 * k, f, 2 * e)
    ensures |b| == |w| && k <= e
  {
  }

  /** And of the entries, behind the name. */
  lemma ClientPut(d: Device, name: seq<Unit>, pins: seq<Pin>, a: Place, s: Space, s': Space,
                  e: seq<Unit>, y: seq<Unit>, v: seq<Unit>, c: Camera)
    requires DeviceOk(d) && 0 !in name && StringAt(v, 2 * a.p, name) && s.pf == Up(2 * a.p + |name| + 1)
    requires c == Camera(name, ClientEntries(d, Outcomes(d, pins, s.cb, s.cb2)))
    requires Placed(y, v, 2 * s.pf, Concat(c.entries), 2 * s'.pf) && s'.pf == s.pf + ENTRY_WORDS * |c.entries|
    requires |e| == |y| && 2 * s'.pf + 2 <= |e| && e[..2 * s'.pf] == y[..2 * s'.pf] && Long(e, s'.pf) == 0
    ensures |e| == |v| && CameraAt(e, a.p, c) && s'.pf + 1 == Behind(c, a.p) && 2 * a.p <= |v|
            && e[..2 * a.p] == v[..2 * a.p]
  {
    ClientEntriesSized(d, Outcomes(d, pins, s.cb, s.cb2));
    PlacedBounds(y, v, s.pf, Concat(c.entries), s'.pf);
    assert CameraMade(c) && EntriesAt(c, a.p) == s.pf && Behind(c, a.p) == s'.pf + 1;
    hide *;
    CameraPut(e, y, v, a.p, c, s'.pf);
  }

  /** What the pins and the two zero words leave behind a name. */
  lemma ListedPut(d: Device, name: seq<Unit>, pins: seq<Pin>, a: Place, s: Space, s': Space,
                  b: seq<Unit>, x: seq<Unit>, w: seq<Unit>, e: seq<Unit>, y: seq<Unit>, v: seq<Unit>)
    returns (l: Listed)
    requires DeviceOk(d) && 0 !in name && Exact(a, |w|, |v|) && 2 * a.p + |name| + 1 <= |v|
             && StringAt(v, 2 * a.p, name)
    requires s == Start(name, a.i, a.p, |w|, |v|)
    requires PinsDone(d, Outcomes(d, pins, s.cb, s.cb2), s, s', x, w, y, v) && s'.cb >= 4 && s'.cb2 >= 4
    requires |b| == |x| && b[..2 * s'.k] == x[..2 * s'.k] && 2 * s'.k + 2 <= |b| && Long(b, s'.k) == 0
    requires |e| == |y| && e[..2 * s'.pf] == y[..2 * s'.pf] && 2 * s'.pf + 2 <= |e| && Long(e, s'.pf) == 0
    ensures l == Listed(Camera(name, ClientEntries(d, Outcomes(d, pins, s.cb, s.cb2))), Kept(d, pins, s))
    ensures Put(l, a, Place(2 * s'.k + 2, s'.cb - 4, s'.pf + 1, s'.cb2 - 4), b, w, e, v)
  {
    hide Long, Placed, Concat, Outcomes, ServerRanges, ClientEntries, Kept, StringAt, CameraAt, RangesOf, DeviceOk;
    hide EntriesSized;
    var c := Camera(name, ClientEntries(d, Outcomes(d, pins, s.cb, s.cb2)));
    l := Listed(c, Kept(d, pins, s));
    ServerPut(d, pins, a, s, s', b, x, w);
    ClientPut(d, name, pins, a, s, s', e, y, v, c);
  }

  lemma AlignRanges(n: nat, i: nat)
    requires n % 4 == 0 && i <= n
    ensures (2 * n - 2 * i) / 8 * 8 == 2 * n - 4 * UpRange(i)
  {
    var t := n / 4;
    assert n == 4 * t && (8 * t - 2 * i) / 8 == t - (i + 3) / 4;
  }

  lemma AlignEntries(m: nat, i: nat)
    requires m % 2 == 0 && i <= m
    ensures (2 * m - 2 * i) / 4 * 4 == 2 * m - 4 * Up(i)
  {
    var t := m / 2;
    assert m == 2 * t && (4 * t - 2 * i) / 4 == t - (i + 1) / 2;
  }

  /** Both buffers are aligned behind a name. */
  method Align(a: Place, name: seq<Unit>, ghost n: nat, ghost m: nat) returns (s: Space)
    requires Exact(a, n, m) && 2 * a.p + |name| + 1 <= m
    ensures s == Start(name, a.i, a.p, n, m)
  {
    var p := 2 * a.p + |name| + 1;
    AlignRanges(n, a.i);
    AlignEntries(m, p);
    assert a.cb == 2 * n - 2 * a.i && a.cb2 - 2 * (|name| + 1) == 2 * m - 2 * p;
    hide UpRange, Up;
    s := Space(UpRange(a.i), a.cb / 8 * 8, Up(p), (a.cb2 - 2 * (|name| + 1)) / 4 * 4);
  }

  lemma Ready(d: Device, name: seq<Unit>, pins: seq<Pin>, a: Place, s: Space, s': Space,
              b: seq<Unit>, w: seq<Unit>, e: seq<Unit>, v: seq<Unit>)
    requires Exact(a, |w|, |v|) && 2 * a.p + |name| + 1 <= |v| && s == Start(name, a.i, a.p, |w|, |v|)
    requires PinsDone(d, Outcomes(d, pins, s.cb, s.cb2), s, s', b, w, e, v)
    ensures |b| == |w| && |e| == |v| && 4 * s'.k + s'.cb == 2 * |w| && 4 * s'.pf + s'.cb2 == 2 * |v|
    ensures s'.cb < 4 || s'.cb2 < 4 <==>
              || s.cb < RANGE_BYTES * |Kept(d, pins, s)| + 4
              || s.cb2 < VFI_BYTES * |ClientEntries(d, Outcomes(d, pins, s.cb, s.cb2))| + 4
  {
    hide Concat, Outcomes, ServerRanges, ClientEntries, Kept;
  }

  /** Behind the name both lists have room for what the pins add and for the zero word. */
  predicate RoomBehind(d: Device, c: Source, i: nat, p: nat, n: nat, m: nat)
    requires Room(i, p, n, m) && ((c.name.Some? && 2 * (|c.name.value| + 1) <= 2 * m - 4 * p) || 2 * m - 4 * p >= 4)
  {
    var fits := c.name.Some? && 2 * (|c.name.value| + 1) <= 2 * m - 4 * p;
    var s := Start(if fits then c.name.value else STAR, i, p, n, m);
    && s.cb >= RANGE_BYTES * |Kept(d, c.pins, s)| + 4
    && s.cb2 >= VFI_BYTES * |ClientEntries(d, Outcomes(d, c.pins, s.cb, s.cb2))| + 4
  }

  /** One camera: name, alignment, pins, and a zero word in each list. */
  method AddCamera(d: Device, buf: array<Unit>, out: array<Unit>, a: Place, c: Source)
    returns (r: Option<Place>, ghost l: Listed)
    requires DeviceOk(d) && SourceOk(c) && buf != out && Exact(a, buf.Length, out.Length)
    modifies buf, out
    ensures r.Some? <==> Listing(d, c, a.i, a.p, buf.Length, out.Length).Some?
    ensures r.Some? ==>
              && l == Listing(d, c, a.i, a.p, buf.Length, out.Length).value && Exact(r.value, buf.Length, out.Length)
              && Put(l, a, r.value, buf[..], old(buf[..]), out[..], old(out[..]))
    ensures r.Some? && c.name.Some? && 2 * (|c.name.value| + 1) <= a.cb2 ==> l.camera.name == c.name.value
    ensures r.Some? && !(c.name.Some? && 2 * (|c.name.value| + 1) <= a.cb2) ==> a.cb2 >= 4 && l.camera.name == [0x2a]
    ensures !(c.name.Some? && 2 * (|c.name.value| + 1) <= a.cb2) && a.cb2 < 4 ==> r == None
    ensures r == None && ((c.name.Some? && 2 * (|c.name.value| + 1) <= a.cb2) || a.cb2 >= 4) ==>
              !RoomBehind(d, c, a.i, a.p, buf.Length, out.Length)
    ensures r.Some? ==> RoomBehind(d, c, a.i, a.p, buf.Length, out.Length)
  {
    hide PinsDone, DeviceOk, Put, StringAt, Long, Start, Kept;
    l := Listed(Camera([], []), []);
    ghost var w, v0 := buf[..], out[..];
    var name := PutName(out, a, c);
    if name == None {
      return None, l;
    }
    ghost var v := out[..];
    var s := Align(a, name.value, buf.Length, out.Length);
    var s' := CollectPins(d, buf, out, s, c.pins);
    ghost var x, y := buf[..], out[..];
    Ready(d, name.value, c.pins, a, s, s', x, w, y, v);
    if s'.cb < 4 || s'.cb2 < 4 {
      return None, l;
    }
    PutZero(buf, s'.k);
    PutZero(out, s'.pf);
    l := ListedPut(d, name.value, c.pins, a, s, s', buf[..], x, w, out[..], y, v);
    r := Some(Place(2 * s'.k + 2, s'.cb - 4, s'.pf + 1, s'.cb2 - 4));
    PutFrom(l, a, r.value, buf[..], w, out[..], v, v0);
  }

  // ---- All cameras -------------------------------------------------------------------

  predicate SourcesOk(cs: seq<Source>) {
    forall m :: 0 <= m < |cs| ==> SourceOk(cs[m])
  }

  function Paths(cs: seq<Source>): (ps: seq<seq<Unit>>)
    ensures |ps| == |cs| && forall m :: 0 <= m < |cs| ==> ps[m] == cs[m].path
  {
    seq(|cs|, m requires 0 <= m < |cs| => cs[m].path)
  }

  /** The cameras done so far are in both lists, from the end of the paths up to place a. */
  ghost predicate Built(b: seq<Unit>, e: seq<Unit>, done: seq<Listed>, start: nat, a: Place) {
    start <= a.i && RangesChain(b, start, Ranges(done), a.i) && Chain(e, 0, Cameras(done), a.p)
  }

  lemma BuiltMore(done: seq<Listed>, l: Listed, start: nat, a: Place, a': Place, b: seq<Unit>, w: seq<Unit>,
                  e: seq<Unit>, v: seq<Unit>)
    requires Built(w, v, done, start, a) && Put(l, a, a', b, w, e, v)
    ensures Built(b, e, done + [l], start, a') && a.i <= a'.i
  {
    hide RangesOf, CameraAt, RangesChain, Chain, UpRange, Behind;
    RangesChainFrame(w, b, start, Ranges(done), a.i);
    ChainFrame(v, e, 0, Cameras(done), a.p);
    RangesChainAppend(b, start, Ranges(done), a.i, l.ranges);
    ChainAppend(e, 0, Cameras(done), a.p, l.camera);
    assert Ranges(done + [l]) == Ranges(done) + [l.ranges] && Cameras(done + [l]) == Cameras(done) + [l.camera];
    RangesBeyond(a.i, l.ranges);
  }

  lemma RangesBeyond(i: nat, rs: seq<Range>)
    ensures i <= RangesBehind(i, rs)
  {
  }

  /** The client's list ends with a zero character. */
  lemma ListEnds(e: seq<Unit>, v: seq<Unit>, done: seq<Listed>, p: nat)
    requires Chain(v, 0, Cameras(done), p) && 2 * p < |v| == |e| && e[..2 * p] == v[..2 * p] && e[2 * p] == 0
    ensures LaidOut(e[..2 * p + 1], 0, Cameras(done))
  {
    hide Chain, LaidOut;
    var f := e[..2 * p + 1];
    assert f[..2 * p] == e[..2 * p];
    ChainFrame(v, f, 0, Cameras(done), p);
    ChainLaid(f, 0, Cameras(done), p);
  }

  lemma ServerEnds(b: seq<Unit>, w: seq<Unit>, ps: seq<seq<Unit>>, done: seq<Listed>, i: nat)
    requires PathsAt(w, 0, ps) && |b| == |w| && PathsEnd(0, ps) <= |w| && b[..PathsEnd(0, ps)] == w[..PathsEnd(0, ps)]
    requires RangesChain(b, PathsEnd(0, ps), Ranges(done), i) && |done| == |ps|
    ensures ServerLaid(b, ps, Ranges(done))
  {
    hide RangesChain, PathsAt, RangesAt;
    PathsFrame(w, b, 0, ps, PathsEnd(0, ps));
    RangesChainLaid(b, PathsEnd(0, ps), Ranges(done), i);
  }

  /** The walk over the paths stands at camera m. */
  ghost predicate Walking(w: seq<Unit>, cs: seq<Source>, q: nat, m: nat, start: nat) {
    m <= |cs| && PathsAt(w, q, Paths(cs)[m..]) && PathsEnd(q, Paths(cs)[m..]) == start
  }

  lemma WalkStep(b: seq<Unit>, w: seq<Unit>, cs: seq<Source>, q: nat, m: nat, start: nat)
    requires Walking(w, cs, q, m, start) && |b| == |w| && start <= |w| && b[..start] == w[..start]
    ensures q < |b| && (b[q] == 0 <==> m == |cs|)
    ensures m < |cs| ==>
              && q + |cs[m].path| < |b| && b[q + |cs[m].path|] == 0
              && StringEnd(b, q, q + |cs[m].path|) == q + |cs[m].path| + 1
              && Walking(w, cs, q + |cs[m].path| + 1, m + 1, start)
  {
    var ps := Paths(cs);
    PathsFrame(w, b, q, ps[m..], start);
    hide PathsAt, StringEnd;
    PathFirst(b, q, ps[m..]);
    PathFirst(w, q, ps[m..]);
    if m < |cs| {
      assert ps[m..][0] == cs[m].path && ps[m..][1..] == ps[m + 1..];
    }
  }

  lemma Unlisted(d: Device, cs: seq<Source>, m: nat, a: Place, n: nat, k: nat, l: Listed, done: seq<Listed>)
    requires m < |cs| && Exact(a, n, k)
    ensures Listing(d, cs[m], a.i, a.p, n, k) == None ==> Listings(d, cs[m..], a.i, a.p, n, k) == None
    ensures Listing(d, cs[m], a.i, a.p, n, k) == Some(l) ==>
              && Room(RangesBehind(a.i, l.ranges), Behind(l.camera, a.p), n, k)
              && Before(done, Listings(d, cs[m..], a.i, a.p, n, k)) ==
                 Before(done + [l], Listings(d, cs[m + 1..], RangesBehind(a.i, l.ranges), Behind(l.camera, a.p), n, k))
  {
    if Listing(d, cs[m], a.i, a.p, n, k) == Some(l) {
      ListingRoom(d, cs[m], a.i, a.p, n, k);
    }
    assert cs[m..][0] == cs[m] && cs[m..][1..] == cs[m + 1..];
    hide Listing, RangesBehind, Behind;
    if Listing(d, cs[m], a.i, a.p, n, k) == Some(l) {
      var rest := Listings(d, cs[m + 1..], RangesBehind(a.i, l.ranges), Behind(l.camera, a.p), n, k);
      if rest.Some? {
        assert done + ([l] + rest.value) == (done + [l]) + rest.value;
      }
    }
  }

  /** The word behind these cameras in the client's list, and the character behind their ranges in the
      server's. */
  function WordBehind(ls: seq<Listed>): nat {
    if ls == [] then 0 else Behind(ls[|ls| - 1].camera, WordBehind(ls[..|ls| - 1]))
  }

  function CharBehind(start: nat, ls: seq<Listed>): nat {
    if ls == [] then start else RangesBehind(CharBehind(start, ls[..|ls| - 1]), ls[|ls| - 1].ranges)
  }

  /** Camera c is listed as l from character i of the server's list and word p of the client's on. */
  predicate ListedAt(d: Device, c: Source, l: Listed, i: nat, p: nat, n: nat, m: nat) {
    && Room(i, p, n, m)
    && (if c.name.Some? && 2 * (|c.name.value| + 1) <= 2 * m - 4 * p then l.camera.name == c.name.value
        else 2 * m - 4 * p >= 4 && l.camera.name == [0x2a])
    && RoomBehind(d, c, i, p, n, m)
  }

  /** It cannot be: not even a star fits, or there is no room behind the name. */
  predicate Unlistable(d: Device, c: Source, i: nat, p: nat, n: nat, m: nat) {
    && Room(i, p, n, m)
    && ((c.name.Some? && 2 * (|c.name.value| + 1) <= 2 * m - 4 * p) || 2 * m - 4 * p >= 4 ==>
          !RoomBehind(d, c, i, p, n, m))
  }

  /** Each camera done is listed behind those before it. */
  ghost predicate InPlace(d: Device, cs: seq<Source>, ls: seq<Listed>, start: nat, n: nat, m: nat) {
    && |ls| <= |cs|
    && forall k :: 0 <= k < |ls| ==>
                     ListedAt(d, cs[k], ls[k], CharBehind(start, ls[..k]), WordBehind(ls[..k]), n, m)
  }

  lemma InPlaceNames(d: Device, cs: seq<Source>, ls: seq<Listed>, start: nat, n: nat, m: nat)
    requires InPlace(d, cs, ls, start, n, m)
    ensures |ls| <= |cs|
    ensures forall k :: 0 <= k < |ls| && cs[k].name.Some?
                        && 2 * (|cs[k].name.value| + 1) <= 2 * m - 4 * WordBehind(ls[..k]) ==>
                          ls[k].camera.name == cs[k].name.value
    ensures forall k :: 0 <= k < |ls|
                        && !(cs[k].name.Some? && 2 * (|cs[k].name.value| + 1) <= 2 * m - 4 * WordBehind(ls[..k])) ==>
                          ls[k].camera.name == [0x2a]
  {
    hide WordBehind, CharBehind, RoomBehind;
    forall k | 0 <= k < |ls|
      ensures ListedAt(d, cs[k], ls[k], CharBehind(start, ls[..k]), WordBehind(ls[..k]), n, m)
    {
    }
  }

  lemma InPlaceNone(d: Device, cs: seq<Source>, start: nat, n: nat, m: nat)
    ensures InPlace(d, cs, [], start, n, m) && CharBehind(start, []) == start && WordBehind([]) == 0
  {
  }

  lemma InPlaceNext(d: Device, cs: seq<Source>, ls: seq<Listed>, l: Listed, start: nat, n: nat, m: nat)
    requires InPlace(d, cs, ls, start, n, m) && |ls| < |cs|
    requires ListedAt(d, cs[|ls|], l, CharBehind(start, ls), WordBehind(ls), n, m)
    ensures InPlace(d, cs, ls + [l], start, n, m)
    ensures CharBehind(start, ls + [l]) == RangesBehind(CharBehind(start, ls), l.ranges)
    ensures WordBehind(ls + [l]) == Behind(l.camera, WordBehind(ls))
  {
    hide ListedAt, RangesBehind, Behind;
    var all := ls + [l];
    assert all[..|ls|] == ls;
    forall k | 0 <= k < |all|
      ensures ListedAt(d, cs[k], all[k], CharBehind(start, all[..k]), WordBehind(all[..k]), n, m)
    {
      if k < |ls| {
        assert all[..k] == ls[..k];
      }
    }
  }

  /** The state of the camera loop: what is done, and that the rest decides the result. */
  ghost predicate Looping(d: Device, cs: seq<Source>, whole: Option<seq<Listed>>, done: seq<Listed>, m: nat, q: nat,
                          a: Place, b: seq<Unit>, w: seq<Unit>, e: seq<Unit>, start: nat)
  {
    && Exact(a, |b|, |e|) && start <= |w| == |b| && b[..start] == w[..start]
    && Walking(w, cs, q, m, start) && Built(b, e, done, start, a) && |done| == m
    && whole == Before(done, Listings(d, cs[m..], a.i, a.p, |b|, |e|))
  }

  lemma Turn(d: Device, cs: seq<Source>, whole: Option<seq<Listed>>, done: seq<Listed>, l: Listed, m: nat, q: nat,
             a: Place, a': Place, b: seq<Unit>, x: seq<Unit>, w: seq<Unit>, e: seq<Unit>, y: seq<Unit>, start: nat)
    requires Looping(d, cs, whole, done, m, q, a, x, w, y, start) && m < |cs| && Exact(a', |b|, |e|)
    requires Listing(d, cs[m], a.i, a.p, |x|, |y|) == Some(l) && Put(l, a, a', b, x, e, y)
    ensures Looping(d, cs, whole, done + [l], m + 1, q + |cs[m].path| + 1, a', b, w, e, start)
    ensures q + |cs[m].path| < |b| && b[q + |cs[m].path|] == 0
            && StringEnd(b, q, q + |cs[m].path|) == q + |cs[m].path| + 1
  {
    hide Listing, Listings, RangesBehind, Behind, Chain, RangesChain, Walking, RangesOf, CameraAt, StringEnd;
    WalkStep(b, w, cs, q, m, start) by {
      assert b[..start] == b[..a.i][..start] == x[..start];
    }
    BuiltMore(done, l, start, a, a', b, x, e, y);
    Unlisted(d, cs, m, a, |b|, |e|, l, done);
  }

  lemma LoopFacts(d: Device, cs: seq<Source>, whole: Option<seq<Listed>>, done: seq<Listed>, m: nat, q: nat, a: Place,
                  b: seq<Unit>, w: seq<Unit>, e: seq<Unit>, start: nat)
    requires Looping(d, cs, whole, done, m, q, a, b, w, e, start)
    ensures Exact(a, |b|, |e|) && q < |b| && m <= |cs| && (b[q] == 0 <==> m == |cs|)
    ensures m < |cs| && Listing(d, cs[m], a.i, a.p, |b|, |e|) == None ==> whole == None
    ensures m == |cs| ==> whole == if a.cb2 < 4 then None else Some(done)
  {
    hide Listing, Listings, Built;
    WalkStep(b, w, cs, q, m, start);
    if m < |cs| {
      Unlisted(d, cs, m, a, |b|, |e|, Listed(Camera([], []), []), done);
    } else {
      AllListed(d, cs[m..], a, |b|, |e|);
      assert done + [] == done;
    }
  }

  lemma AllListed(d: Device, cs: seq<Source>, a: Place, n: nat, k: nat)
    requires Exact(a, n, k) && cs == []
    ensures Listings(d, cs, a.i, a.p, n, k) == if a.cb2 < 4 then None else Some([])
  {
  }

  lemma Finished(d: Device, cs: seq<Source>, whole: Option<seq<Listed>>, done: seq<Listed>, m: nat, q: nat, a: Place,
                 b: seq<Unit>, w: seq<Unit>, e: seq<Unit>, y: seq<Unit>, start: nat)
    requires Looping(d, cs, whole, done, m, q, a, b, w, y, start) && m == |cs| && start == PathsEnd(0, Paths(cs))
    requires PathsAt(w, 0, Paths(cs)) && 2 * a.p < |y| == |e| && e[..2 * a.p] == y[..2 * a.p] && e[2 * a.p] == 0
    ensures ServerLaid(b, Paths(cs), Ranges(done)) && LaidOut(e[..2 * a.p + 1], 0, Cameras(done))
  {
    hide PathsAt, ServerLaid, LaidOut, Chain, RangesChain, Listings;
    ListEnds(e, y, done, a.p);
    ServerEnds(b, w, Paths(cs), done, a.i);
  }

  lemma Begin(d: Device, cs: seq<Source>, a: Place, w: seq<Unit>, e: seq<Unit>)
    requires Exact(a, |w|, |e|) && a.i == PathsEnd(0, Paths(cs)) <= |w| && a.p == 0 && PathsAt(w, 0, Paths(cs))
    ensures Looping(d, cs, Listings(d, cs, a.i, 0, |w|, |e|), [], 0, 0, a, w, w, e, a.i)
  {
    assert cs[0..] == cs && Paths(cs)[0..] == Paths(cs);
    var r := Listings(d, cs, a.i, 0, |w|, |e|);
    assert r.Some? ==> [] + r.value == r.value;
    assert Ranges([]) == [] && Cameras([]) == [];
    hide Listings, PathsAt;
  }

  /** The camera loop stands at camera |done|: those before are in both lists, each in its place. */
  ghost predicate Standing(d: Device, cs: seq<Source>, done: seq<Listed>, q: nat, a: Place, b: seq<Unit>,
                           w: seq<Unit>, e: seq<Unit>, start: nat)
  {
    && Room(start, 0, |b|, |e|)
    && Looping(d, cs, Listings(d, cs, start, 0, |b|, |e|), done, |done|, q, a, b, w, e, start)
    && InPlace(d, cs, done, start, |b|, |e|) && a.i == CharBehind(start, done) && a.p == WordBehind(done)
  }

  lemma StandingFacts(d: Device, cs: seq<Source>, done: seq<Listed>, q: nat, a: Place, b: seq<Unit>,
                      w: seq<Unit>, e: seq<Unit>, start: nat)
    requires Standing(d, cs, done, q, a, b, w, e, start)
    ensures |done| <= |cs| && q < |b| && (b[q] == 0 <==> |done| == |cs|)
  {
    LoopFacts(d, cs, Listings(d, cs, start, 0, |b|, |e|), done, |done|, q, a, b, w, e, start);
  }

  lemma StandingPlaces(d: Device, cs: seq<Source>, done: seq<Listed>, q: nat, a: Place, b: seq<Unit>,
                       w: seq<Unit>, e: seq<Unit>, start: nat)
    requires Standing(d, cs, done, q, a, b, w, e, start)
    ensures InPlace(d, cs, done, start, |b|, |e|) && a.p == WordBehind(done) && Exact(a, |b|, |e|)
  {
    hide Listings, InPlace, Built;
  }

  lemma StandingFirst(d: Device, cs: seq<Source>, a: Place, w: seq<Unit>, e: seq<Unit>)
    requires Exact(a, |w|, |e|) && a.i == PathsEnd(0, Paths(cs)) <= |w| && a.p == 0 && PathsAt(w, 0, Paths(cs))
    ensures Standing(d, cs, [], 0, a, w, w, e, a.i)
  {
    hide Looping, Listings, PathsAt;
    Begin(d, cs, a, w, e);
    InPlaceNone(d, cs, a.i, |w|, |e|);
  }

  /** One turn of the camera loop. */
  method ListCamera(d: Device, buf: array<Unit>, out: array<Unit>, c: Source, a: Place, q: nat,
                    ghost cs: seq<Source>, ghost done: seq<Listed>, ghost w: seq<Unit>, ghost start: nat)
    returns (next: Option<(Place, nat)>, ghost l: Listed)
    requires DeviceOk(d) && SourceOk(c) && buf != out && |done| < |cs| && c == cs[|done|]
    requires Standing(d, cs, done, q, a, buf[..], w, out[..], start)
    modifies buf, out
    ensures next == None ==>
              && Room(start, 0, buf.Length, out.Length)
              && Listings(d, cs, start, 0, buf.Length, out.Length) == None
              && Unlistable(d, c, CharBehind(start, done), WordBehind(done), buf.Length, out.Length)
    ensures next.Some? ==>
              Standing(d, cs, done + [l], next.value.1, next.value.0, buf[..], w, out[..], start)
  {
    hide Looping, Put, DeviceOk, SourceOk, Listing, Listings, StringEnd, RoomBehind, RangesBehind, Behind, InPlace;
    hide WordBehind, CharBehind;
    ghost var x, y, m := buf[..], out[..], |done|;
    ghost var whole := Listings(d, cs, start, 0, buf.Length, out.Length);
    LoopFacts(d, cs, whole, done, m, q, a, x, w, y, start);
    var a';
    a', l := AddCamera(d, buf, out, a, c);
    if a' == None {
      return None, l;
    }
    Turn(d, cs, whole, done, l, m, q, a, a'.value, buf[..], x, w, out[..], y, start);
    PutMoves(l, a, a'.value, buf[..], x, out[..], y);
    InPlaceNext(d, cs, done, l, start, buf.Length, out.Length);
    var q' := SkipString(buf, q, q + |c.path|);
    next := Some((a'.value, q'));
  }

  /** The camera loop: where both lists end, or None, with the cameras listed so far, at one that cannot
      be listed. */
  method ListCameras(d: Device, buf: array<Unit>, out: array<Unit>, cs: seq<Source>, i: nat)
    returns (end: Option<Place>, ghost q: nat, ghost ls: seq<Listed>)
    requires DeviceOk(d) && SourcesOk(cs) && buf != out && Room(i, 0, buf.Length, out.Length)
    requires PathsAt(buf[..], 0, Paths(cs)) && i == PathsEnd(0, Paths(cs))
    modifies buf, out
    ensures end.Some? ==>
              |ls| == |cs| && Standing(d, cs, ls, q, end.value, buf[..], old(buf[..]), out[..], i)
    ensures end == None ==>
              && InPlace(d, cs, ls, i, buf.Length, out.Length)
              && |ls| < |cs| && Listings(d, cs, i, 0, buf.Length, out.Length) == None
              && Unlistable(d, cs[|ls|], CharBehind(i, ls), WordBehind(ls), buf.Length, out.Length)
  {
    ghost var w := buf[..];
    var a, at: nat, m: nat := Place(i, 2 * buf.Length - 2 * i, 0, 2 * out.Length), 0, 0;
    ls := [];
    StandingFirst(d, cs, a, w, out[..]);
    StandingFacts(d, cs, ls, at, a, w, w, out[..], i);
    hide Standing, InPlace, Unlistable, WordBehind, CharBehind, Listings, DeviceOk, SourceOk, PathsAt, Paths;
    while buf[at] != 0
      invariant Standing(d, cs, ls, at, a, buf[..], w, out[..], i)
      invariant |ls| == m <= |cs| && at < buf.Length && (buf[at] == 0 <==> m == |cs|)
      decreases |cs| - m
    {
      StandingPlaces(d, cs, ls, at, a, buf[..], w, out[..], i);
      var next, l := ListCamera(d, buf, out, cs[m], a, at, cs, ls, w, i);
      if next == None {
        return None, at, ls;
      }
      a, at := next.value.0, next.value.1;
      ls, m := ls + [l], m + 1;
      StandingFacts(d, cs, ls, at, a, buf[..], w, out[..], i);
    }
    end, q := Some(a), at;
  }

  /** Both lists, for all cameras: the end of the client's list, or None if a buffer is exhausted. */
  method CreateInfo(d: Device, buf: array<Unit>, out: array<Unit>, cs: seq<Source>)
    returns (end: Option<nat>, ghost ls: seq<Listed>)
    requires DeviceOk(d) && SourcesOk(cs) && buf != out && buf.Length % 4 == 0 && out.Length % 2 == 0
    requires PathsAt(buf[..], 0, Paths(cs)) && PathsEnd(0, Paths(cs)) <= buf.Length
    modifies buf, out
    ensures var r := Listings(d, cs, PathsEnd(0, Paths(cs)), 0, buf.Length, out.Length);
            && (end.Some? <==> r.Some?)
            && (end.Some? ==>
                  && ls == r.value && end.value <= out.Length
                  && ServerLaid(buf[..], Paths(cs), Ranges(ls)) && LaidOut(out[..end.value], 0, Cameras(ls)))
    // each camera carries its friendly name if that fits what is left, and else a star
    ensures end.Some? ==> |ls| == |cs|
    ensures forall k :: 0 <= k < |ls| <= |cs| && cs[k].name.Some?
                        && 2 * (|cs[k].name.value| + 1) <= 2 * out.Length - 4 * WordBehind(ls[..k]) ==>
                          ls[k].camera.name == cs[k].name.value
    ensures forall k :: 0 <= k < |ls| <= |cs|
                        && !(cs[k].name.Some?
                             && 2 * (|cs[k].name.value| + 1) <= 2 * out.Length - 4 * WordBehind(ls[..k])) ==>
                          ls[k].camera.name == [0x2a]
    // it fails exactly where a camera cannot be listed, or the end of the list does not fit
    ensures |ls| <= |cs| && InPlace(d, cs, ls, PathsEnd(0, Paths(cs)), buf.Length, out.Length)
    ensures end.Some? ==> end.value == 2 * WordBehind(ls) + 1 && 2 * out.Length - 4 * WordBehind(ls) >= 4
    ensures end == None && |ls| == |cs| ==> 2 * out.Length - 4 * WordBehind(ls) < 4
    ensures end == None && |ls| < |cs| ==>
              Unlistable(d, cs[|ls|], CharBehind(PathsEnd(0, Paths(cs)), ls), WordBehind(ls), buf.Length, out.Length)
  {
    hide Looping, DeviceOk, SourceOk, Listings, PathsAt, ServerLaid, LaidOut, Ranges, Cameras, Paths;
    hide Unlistable, Behind, RoomBehind, InPlace, ListedAt, WordBehind, CharBehind;
    ghost var w := buf[..];
    var i := GetStringsEnd(buf, Paths(cs));
    ghost var whole := Listings(d, cs, i, 0, buf.Length, out.Length);
    var place;
    ghost var q;
    place, q, ls := ListCameras(d, buf, out, cs, i);
    if place == None {
      InPlaceNames(d, cs, ls, i, buf.Length, out.Length);
      return None, ls;
    }
    StandingPlaces(d, cs, ls, q, place.value, buf[..], w, out[..], i);
    InPlaceNames(d, cs, ls, i, buf.Length, out.Length);
    var a := place.value;
    LoopFacts(d, cs, whole, ls, |cs|, q, a, buf[..], w, out[..], i);
    if a.cb2 < 4 {
      return None, ls;
    }
    ghost var y := out[..];
    out[2 * a.p] := 0;
    Finished(d, cs, whole, ls, |cs|, q, a, buf[..], w, out[..], y, i);
    end := Some(2 * a.p + 1);
  }
}
