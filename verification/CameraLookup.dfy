/** The server's lookup of the range a client asks for by position. */
module CameraLookup {
  import opened Words
  import opened CameraList
  import opened CameraServer

  /** The first 32-bit word on an 8-byte boundary at or behind a character. */
  function UpRange(i: nat): (k: nat)
    ensures i <= 2 * k <= i + 3
  {
    (i + 3) / 4 * 2
  }

  /** The device interface names, ended by an empty one. */
  predicate PathsAt(w: seq<Unit>, i: nat, ps: seq<seq<Unit>>)
    decreases |ps|
  {
    if ps == [] then i < |w| && w[i] == 0
    else ps[0] != [] && 0 !in ps[0] && StringAt(w, i, ps[0]) && PathsAt(w, i + |ps[0]| + 1, ps[1..])
  }

  function PathsEnd(i: nat, ps: seq<seq<Unit>>): nat
    decreases |ps|
  {
    if ps == [] then i + 1 else PathsEnd(i + |ps[0]| + 1, ps[1..])
  }

  /** The ranges of each camera, ended by a zero word. */
  predicate RangesAt(w: seq<Unit>, i: nat, rss: seq<seq<Range>>)
    decreases |rss|
  {
    rss == [] ||
    var k := UpRange(i);
    var end := k + RANGE_WORDS * |rss[0]|;
    && ItemsAt(w, k, RANGE_WORDS, rss[0]) && (forall r :: r in rss[0] ==> Long(r, 0) != 0)
    && 2 * end + 2 <= |w| && Long(w, end) == 0 && RangesAt(w, 2 * end + 2, rss[1..])
  }

  predicate ServerLaid(w: seq<Unit>, ps: seq<seq<Unit>>, rss: seq<seq<Range>>) {
    |ps| == |rss| && PathsAt(w, 0, ps) && RangesAt(w, PathsEnd(0, ps), rss)
  }

  /** Where the loop of `GetFormatInfo` stops from camera m on: the counter of the camera asked
      for starts at 0, that of any other at 2^31. */
  function Find(rss: seq<seq<Range>>, m: nat, i: nat, j: nat): (r: Option<(nat, nat)>)
    requires m <= |rss|
    ensures r.Some? ==> r.value.0 < |rss| && r.value.1 < |rss[r.value.0]|
    decreases |rss| - m
  {
    if m == |rss| then None
    else
      var n := if m == i then 0 else MIN_LONG;
      if n <= j < n + |rss[m]| then Some((m, j - n)) else Find(rss, m + 1, i, j)
  }

  lemma {:induction false} FindLow(rss: seq<seq<Range>>, m: nat, i: nat, j: nat)
    requires m <= |rss| && j < MIN_LONG
    ensures Find(rss, m, i, j) == if m <= i < |rss| && j < |rss[i]| then Some((i, j)) else None
    decreases |rss| - m
  {
    if m < |rss| {
      FindLow(rss, m + 1, i, j);
    }
  }

  /** Below 2^31 the lookup is exact. */
  lemma LookupExact(rss: seq<seq<Range>>, i: nat, j: nat)
    requires j < MIN_LONG
    ensures Find(rss, 0, i, j) == if i < |rss| && j < |rss[i]| then Some((i, j)) else None
  {
    FindLow(rss, 0, i, j);
  }

  lemma {:induction false} FindHigh(rss: seq<seq<Range>>, m: nat, i: nat, j: nat)
    requires m <= |rss| && j >= MIN_LONG && (i < |rss| ==> |rss[i]| <= MIN_LONG)
    ensures Find(rss, m, i, j).Some? <==> exists n :: m <= n < |rss| && n != i && j - MIN_LONG < |rss[n]|
    ensures Find(rss, m, i, j).Some? ==> Find(rss, m, i, j).value.0 != i
    decreases |rss| - m
  {
    if m < |rss| {
      FindHigh(rss, m + 1, i, j);
    }
  }

  /** From 2^31 on it never finds the camera asked for, but another one's range exactly if some
      other camera has that many. */
  lemma LookupWrong(rss: seq<seq<Range>>, i: nat, j: nat)
    requires j >= MIN_LONG && (i < |rss| ==> |rss[i]| <= MIN_LONG)
    ensures Find(rss, 0, i, j).Some? <==> exists n :: 0 <= n < |rss| && n != i && j - MIN_LONG < |rss[n]|
    ensures Find(rss, 0, i, j).Some? ==> Find(rss, 0, i, j).value.0 != i
  {
    FindHigh(rss, 0, i, j);
  }

  // ---- The lookup in place -----------------------------------------------------------

  function PathStart(ps: seq<seq<Unit>>, m: nat): nat
    requires m <= |ps|
  {
    if m == 0 then 0 else PathStart(ps, m - 1) + |ps[m - 1]| + 1
  }

  lemma PathFirst(w: seq<Unit>, i: nat, ps: seq<seq<Unit>>)
    requires PathsAt(w, i, ps)
    ensures i < |w| && (w[i] == 0 <==> ps == [])
    ensures ps != [] ==> i + |ps[0]| < |w| && w[i + |ps[0]|] == 0 && PathsAt(w, i + |ps[0]| + 1, ps[1..])
    ensures ps != [] ==> StringEnd(w, i, i + |ps[0]|) == i + |ps[0]| + 1
  {
    if ps != [] {
      assert w[i] == ps[0][0] && ps[0][0] != 0;
      StringZero(w, i, ps[0]);
      hide StringAt, StringEnd;
      StringEndAt(w, i, ps[0], i + |ps[0]|);
    }
  }

  lemma {:induction false} StringZero(w: seq<Unit>, i: nat, s: seq<Unit>)
    requires StringAt(w, i, s)
    ensures i + |s| < |w| && w[i + |s|] == 0
    decreases |s|
  {
    if s != [] {
      StringZero(w, i + 1, s[1..]);
    }
  }

  method GetStringsEnd(w: array<Unit>, ghost ps: seq<seq<Unit>>) returns (r: nat)
    requires PathsAt(w[..], 0, ps)
    ensures r == PathsEnd(0, ps)
  {
    hide PathsAt, StringEnd;
    ghost var left := ps;
    r := 0;
    PathFirst(w[..], r, left);
    while w[r] != 0
      invariant r < w.Length && PathsAt(w[..], r, left) && (w[r] == 0 <==> left == [])
      invariant PathsEnd(r, left) == PathsEnd(0, ps)
      decreases |left|
    {
      PathFirst(w[..], r, left);
      r := SkipString(w, r, r + |left[0]|);
      left := left[1..];
      PathFirst(w[..], r, left);
    }
    r := r + 1;
  }

  /** The ranges of one camera and the word that ends them. */
  predicate RangesOf(w: seq<Unit>, k: nat, rs: seq<Range>, end: nat) {
    && ItemsAt(w, k, RANGE_WORDS, rs) && (forall r :: r in rs ==> Long(r, 0) != 0)
    && end == k + RANGE_WORDS * |rs| && 2 * end + 2 <= |w| && Long(w, end) == 0
  }

  lemma RangeFirst(w: seq<Unit>, k: nat, rs: seq<Range>, end: nat)
    requires RangesOf(w, k, rs, end)
    ensures 2 * k + 2 <= |w| && (Long(w, k) == 0 <==> rs == []) && end == k + RANGE_WORDS * |rs| && 2 * end < |w|
    ensures rs != [] ==>
              && 2 * (k + RANGE_WORDS) <= |w| && w[2 * k..2 * (k + RANGE_WORDS)] == rs[0]
              && RangesOf(w, k + RANGE_WORDS, rs[1..], end)
  {
    if rs != [] {
      var r := rs[0];
      assert r in rs && r[0] == w[2 * k] && r[1] == w[2 * k + 1];
    }
  }

  /** The ranges of one camera: the range whose counter is j, or the end. */
  method FindRange(w: array<Unit>, k0: nat, n0: nat, j: nat, ghost rs: seq<Range>) returns (hit: bool, k: nat)
    requires RangesOf(w[..], k0, rs, k0 + RANGE_WORDS * |rs|)
    requires n0 <= MIN_LONG && w.Length < MIN_LONG
    ensures hit <==> n0 <= j < n0 + |rs|
    ensures hit ==> 2 * (k + RANGE_WORDS) <= w.Length && w[2 * k..2 * (k + RANGE_WORDS)] == rs[j - n0]
    ensures !hit ==> k == k0 + RANGE_WORDS * |rs|
  {
    hide RangesOf, Long;
    ghost var end, left := k0 + RANGE_WORDS * |rs|, rs;
    var n := n0;
    k := k0;
    RangeFirst(w[..], k, rs, end);
    while Long(w[..], k) != 0
      invariant |left| <= |rs| && left == rs[|rs| - |left|..] && n == n0 + (|rs| - |left|)
      invariant RangesOf(w[..], k, left, end) && 2 * k + 2 <= w.Length && (Long(w[..], k) == 0 <==> left == [])
      invariant !(n0 <= j < n) && |rs| <= w.Length
      decreases |left|
    {
      RangeFirst(w[..], k, left, end);
      if j == n {
        return true, k;
      }
      k, n, left := k + RANGE_WORDS, U32(n + 1), left[1..];
      RangeFirst(w[..], k, left, end);
    }
    RangeFirst(w[..], k, left, end);
    hit := false;
  }

  /** The walk stands at camera m: its path at p, its ranges behind `up`. */
  predicate Standing(w: seq<Unit>, ps: seq<seq<Unit>>, rss: seq<seq<Range>>, p: nat, up: nat, m: nat) {
    m <= |ps| == |rss| && p == PathStart(ps, m) && PathsAt(w, p, ps[m..]) && RangesAt(w, up, rss[m..])
  }

  lemma Stand(w: seq<Unit>, ps: seq<seq<Unit>>, rss: seq<seq<Range>>, p: nat, up: nat, m: nat)
    requires Standing(w, ps, rss, p, up, m)
    ensures p < |w| && (w[p] == 0 <==> m == |ps|)
    ensures m < |ps| ==>
              && p + |ps[m]| < |w| && w[p + |ps[m]|] == 0 && StringEnd(w, p, p + |ps[m]|) == p + |ps[m]| + 1
              && var end := UpRange(up) + RANGE_WORDS * |rss[m]|;
                 && RangesOf(w, UpRange(up), rss[m], end)
                 && Standing(w, ps, rss, p + |ps[m]| + 1, 2 * end + 2, m + 1)
  {
    PathFirst(w, p, ps[m..]);
    hide PathsAt, ItemsAt, Long, StringEnd, UpRange;
    if m < |ps| {
      assert rss[m..][0] == rss[m] && ps[m..][0] == ps[m];
      assert rss[m..][1..] == rss[m + 1..] && ps[m..][1..] == ps[m + 1..];
    }
  }

  lemma StandsAt(w: seq<Unit>, ps: seq<seq<Unit>>, rss: seq<seq<Range>>, p: nat, up: nat, m: nat)
    requires Standing(w, ps, rss, p, up, m)
    ensures m <= |ps| == |rss| && p == PathStart(ps, m)
  {
  }

  /** The range at word k is the one the specification finds. */
  ghost predicate IsRange(w: seq<Unit>, rss: seq<seq<Range>>, k: nat, f: Option<(nat, nat)>) {
    && f.Some? && f.value.0 < |rss| && f.value.1 < |rss[f.value.0]|
    && 2 * (k + RANGE_WORDS) <= |w| && w[2 * k..2 * (k + RANGE_WORDS)] == rss[f.value.0][f.value.1]
  }

  /** One camera of the walk. */
  method VisitCamera(w: array<Unit>, i: nat, j: nat, p: nat, up: nat, m: nat, ghost ps: seq<seq<Unit>>,
                     ghost rss: seq<seq<Range>>)
    returns (hit: bool, k: nat, p': nat, up': nat)
    requires Standing(w[..], ps, rss, p, up, m) && m < |ps| == |rss| && w.Length < MIN_LONG
    ensures hit ==> IsRange(w[..], rss, k, Find(rss, m, i, j)) && Find(rss, m, i, j).value.0 == m
    ensures !hit ==> Standing(w[..], ps, rss, p', up', m + 1) && Find(rss, m, i, j) == Find(rss, m + 1, i, j)
  {
    Stand(w[..], ps, rss, p, up, m);
    hide Standing, RangesOf, ItemsAt, Long, StringEnd, PathStart, PathsAt, RangesAt;
    p', up' := p, up;
    hit, k := FindRange(w, (up + 3) / 4 * 2, if m == i then 0 else MIN_LONG, j, rss[m]);
    if !hit {
      p' := SkipString(w, p, p + |ps[m]|);
      up' := 2 * k + 2;
    }
  }

  /** `GetFormatInfo`: where the path and the range found lie. */
  method GetFormatInfo(w: array<Unit>, i: nat, j: nat, ghost ps: seq<seq<Unit>>, ghost rss: seq<seq<Range>>)
    returns (r: Option<(nat, nat)>)
    requires ServerLaid(w[..], ps, rss) && w.Length < MIN_LONG
    ensures r.Some? <==> Find(rss, 0, i, j).Some?
    ensures r.Some? ==>
              && IsRange(w[..], rss, r.value.1, Find(rss, 0, i, j))
              && Find(rss, 0, i, j).value.0 <= |ps| && r.value.0 == PathStart(ps, Find(rss, 0, i, j).value.0)
  {
    var up := GetStringsEnd(w, ps);
    var p: nat, m: nat := 0, 0;
    assert ps[0..] == ps && rss[0..] == rss;
    assert Standing(w[..], ps, rss, p, up, m);
    hide Standing, PathStart, IsRange;
    Stand(w[..], ps, rss, p, up, m);
    while w[p] != 0
      invariant m <= |ps| == |rss| && p < w.Length
      invariant Standing(w[..], ps, rss, p, up, m) && (w[p] == 0 <==> m == |ps|)
      invariant Find(rss, m, i, j) == Find(rss, 0, i, j)
      decreases |ps| - m
    {
      StandsAt(w[..], ps, rss, p, up, m);
      var hit, k, p', up' := VisitCamera(w, i, j, p, up, m, ps, rss);
      if hit {
        return Some((p, k));
      }
      p, up, m := p', up', m + 1;
      Stand(w[..], ps, rss, p, up, m);
    }
    r := None;
  }
}
