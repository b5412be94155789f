/** How the two lists grow: laying out one more camera keeps the cameras before it. */
module CameraLayout {
  import opened CameraList
  import opened CameraServer
  import opened CameraPins
  import opened CameraLookup

  // ---- Pieces ------------------------------------------------------------------------

  /** A string depends only on its own characters. */
  lemma {:induction false} StringFrame(w: seq<Unit>, v: seq<Unit>, i: nat, s: seq<Unit>, end: nat)
    requires StringAt(w, i, s) && i + |s| + 1 <= end <= |w| && end <= |v| && v[..end] == w[..end]
    ensures StringAt(v, i, s)
    decreases |s|
  {
    assert v[i] == v[..end][i] == w[i];
    if s != [] {
      StringFrame(w, v, i + 1, s[1..], end);
    }
  }

  lemma {:induction false} StringLaid(w: seq<Unit>, i: nat, s: seq<Unit>)
    requires i + |s| < |w| && w[i..i + |s|] == s && w[i + |s|] == 0
    ensures StringAt(w, i, s)
    decreases |s|
  {
    if s != [] {
      assert w[i] == s[0] && w[i + 1..i + |s|] == s[1..];
      StringLaid(w, i + 1, s[1..]);
    }
  }

  lemma {:induction false} FlatConcat(items: seq<seq<Unit>>, x: seq<Unit>)
    ensures Concat(items + [x]) == Concat(items) + x
  {
    if items == [] {
      assert [x][1..] == [];
      assert items + [x] == [x];
    } else {
      FlatConcat(items[1..], x);
      assert (items + [x])[1..] == items[1..] + [x];
    }
  }

  lemma {:induction false} FlatIsConcat(items: seq<seq<Unit>>)
    ensures Flat(items) == Concat(items)
  {
    if items != [] {
      var n := |items| - 1;
      FlatIsConcat(items[..n]);
      FlatConcat(items[..n], items[n]);
      assert items[..n] + [items[n]] == items;
    }
  }

  predicate Sized(items: seq<seq<Unit>>, size: nat) {
    forall i :: 0 <= i < |items| ==> |items[i]| == size
  }

  /** Items lie one behind the other where their concatenation lies. */
  lemma {:induction false} ItemsLaid(w: seq<Unit>, k: nat, size: nat, items: seq<seq<Unit>>)
    requires Sized(items, 2 * size) && 2 * k + |Concat(items)| <= |w|
             && w[2 * k..2 * k + |Concat(items)|] == Concat(items)
    ensures ItemsAt(w, k, size, items)
    decreases |items|
  {
    if items != [] {
      assert Concat(items) == items[0] + Concat(items[1..]);
      SliceParts(w, 2 * k, items[0], Concat(items[1..]));
      ItemsLaid(w, k + size, size, items[1..]);
    }
  }

  lemma {:induction false} ItemsAre(w: seq<Unit>, k: nat, size: nat, items: seq<seq<Unit>>)
    requires Sized(items, 2 * size) && ItemsAt(w, k, size, items)
    ensures items != [] ==> 2 * k + |Concat(items)| <= |w| && w[2 * k..2 * k + |Concat(items)|] == Concat(items)
    decreases |items|
  {
    if items != [] {
      var c := Concat(items[1..]);
      ItemsAre(w, k + size, size, items[1..]);
      if items[1..] == [] {
        assert Concat(items) == items[0];
      } else {
        assert w[2 * k..2 * k + |items[0]| + |c|] == w[2 * k..2 * k + |items[0]|]
               + w[2 * k + |items[0]|..2 * k + |items[0]| + |c|];
      }
    }
  }

  lemma {:induction false} ConcatLength(items: seq<seq<Unit>>, size: nat)
    requires Sized(items, size)
    ensures |Concat(items)| == Times(size, |items|)
  {
    if items != [] {
      ConcatLength(items[1..], size);
    }
  }

  lemma {:induction false} TimesEntry(n: nat)
    ensures Times(ENTRY, n) == ENTRY * n && Times(2 * RANGE_WORDS, n) == 2 * RANGE_WORDS * n
  {
    if n > 0 {
      TimesEntry(n - 1);
    }
  }

  lemma ItemsFrame(w: seq<Unit>, v: seq<Unit>, k: nat, size: nat, items: seq<seq<Unit>>, end: nat)
    requires Sized(items, 2 * size) && ItemsAt(w, k, size, items) && 2 * k + |Concat(items)| <= end
    requires end <= |w| && end <= |v| && v[..end] == w[..end]
    ensures ItemsAt(v, k, size, items)
  {
    hide ItemsAt, Sized, Concat;
    if items != [] {
      ItemsAre(w, k, size, items);
      var n := |Concat(items)|;
      assert v[2 * k..2 * k + n] == v[..end][2 * k..2 * k + n] == w[2 * k..2 * k + n];
      ItemsLaid(v, k, size, items);
    } else {
      NoItems(v, k, size);
    }
  }

  lemma NoItems(v: seq<Unit>, k: nat, size: nat)
    ensures ItemsAt(v, k, size, [])
  {
  }

  lemma LongFrame(w: seq<Unit>, v: seq<Unit>, k: nat, end: nat)
    requires 2 * k + 2 <= end <= |w| && end <= |v| && v[..end] == w[..end]
    ensures Long(v, k) == Long(w, k)
  {
    assert v[2 * k] == v[..end][2 * k] == w[2 * k] && v[2 * k + 1] == v[..end][2 * k + 1] == w[2 * k + 1];
  }

  // ---- The client's list -------------------------------------------------------------

  /** Cameras from word k to word `end`, without the final zero. */
  predicate Chain(w: seq<Unit>, k: nat, cs: seq<Camera>, end: nat)
    decreases |cs|
  {
    if cs == [] then k == end
    else CameraAt(w, k, cs[0]) && Behind(cs[0], k) <= end && Chain(w, Behind(cs[0], k), cs[1..], end)
  }

  lemma CameraFrame(w: seq<Unit>, v: seq<Unit>, k: nat, c: Camera, end: nat)
    requires CameraAt(w, k, c) && Behind(c, k) <= end && 2 * end <= |w| && 2 * end <= |v|
             && v[..2 * end] == w[..2 * end]
    ensures CameraAt(v, k, c)
  {
    assert Sized(c.entries, 2 * ENTRY_WORDS);
    ConcatLength(c.entries, 2 * ENTRY_WORDS);
    TimesEntry(|c.entries|);
    hide Long, Concat, ItemsAt, StringAt, Times, EntriesSized;
    StringFrame(w, v, 2 * k, c.name, 2 * end);
    ItemsFrame(w, v, EntriesAt(c, k), ENTRY_WORDS, c.entries, 2 * end);
    LongFrame(w, v, Behind(c, k) - 1, 2 * end);
  }

  lemma {:induction false} ChainFrame(w: seq<Unit>, v: seq<Unit>, k: nat, cs: seq<Camera>, end: nat)
    requires Chain(w, k, cs, end) && 2 * end <= |w| && 2 * end <= |v| && v[..2 * end] == w[..2 * end]
    ensures Chain(v, k, cs, end)
    decreases |cs|
  {
    hide CameraAt, Behind;
    if cs != [] {
      CameraFrame(w, v, k, cs[0], end);
      ChainFrame(w, v, Behind(cs[0], k), cs[1..], end);
    }
  }

  lemma {:induction false} ChainAppend(w: seq<Unit>, k: nat, cs: seq<Camera>, end: nat, c: Camera)
    requires Chain(w, k, cs, end) && CameraAt(w, end, c)
    ensures Chain(w, k, cs + [c], Behind(c, end))
    decreases |cs|
  {
    hide CameraAt;
    if cs == [] {
      assert (cs + [c])[1..] == [];
    } else {
      ChainAppend(w, Behind(cs[0], k), cs[1..], end, c);
      assert (cs + [c])[1..] == cs[1..] + [c];
      ChainGrows(w, k, cs, end);
    }
  }

  lemma {:induction false} ChainGrows(w: seq<Unit>, k: nat, cs: seq<Camera>, end: nat)
    requires Chain(w, k, cs, end)
    ensures k <= end
    decreases |cs|
  {
  }

  lemma {:induction false} ChainLaid(w: seq<Unit>, k: nat, cs: seq<Camera>, end: nat)
    requires Chain(w, k, cs, end) && |w| == 2 * end + 1 && w[2 * end] == 0
    ensures LaidOut(w, k, cs)
    decreases |cs|
  {
    hide CameraAt;
    if cs != [] {
      ChainLaid(w, Behind(cs[0], k), cs[1..], end);
    }
  }

  // ---- The server's list -------------------------------------------------------------

  /** The ranges of the cameras from character i to character `end`. */
  predicate RangesChain(w: seq<Unit>, i: nat, rss: seq<seq<Range>>, end: nat)
    decreases |rss|
  {
    if rss == [] then i == end
    else
      var k := UpRange(i);
      var e := k + RANGE_WORDS * |rss[0]|;
      && RangesOf(w, k, rss[0], e) && 2 * e + 2 <= end && RangesChain(w, 2 * e + 2, rss[1..], end)
  }

  lemma RangesFrame(w: seq<Unit>, v: seq<Unit>, k: nat, rs: seq<Range>, e: nat, end: nat)
    requires RangesOf(w, k, rs, e) && 2 * e + 2 <= end <= |w| && end <= |v| && v[..end] == w[..end]
    ensures RangesOf(v, k, rs, e)
  {
    assert Sized(rs, 2 * RANGE_WORDS);
    ConcatLength(rs, 2 * RANGE_WORDS);
    TimesEntry(|rs|);
    hide Long, Concat, ItemsAt, Times;
    ItemsFrame(w, v, k, RANGE_WORDS, rs, end);
    LongFrame(w, v, e, end);
  }

  lemma {:induction false} RangesChainFrame(w: seq<Unit>, v: seq<Unit>, i: nat, rss: seq<seq<Range>>, end: nat)
    requires RangesChain(w, i, rss, end) && end <= |w| && end <= |v| && v[..end] == w[..end]
    ensures RangesChain(v, i, rss, end)
    decreases |rss|
  {
    hide RangesOf;
    if rss != [] {
      var k := UpRange(i);
      var e := k + RANGE_WORDS * |rss[0]|;
      hide UpRange;
      RangesFrame(w, v, k, rss[0], e, end);
      RangesChainFrame(w, v, 2 * e + 2, rss[1..], end);
    }
  }

  lemma {:induction false} RangesChainAppend(w: seq<Unit>, i: nat, rss: seq<seq<Range>>, end: nat, rs: seq<Range>)
    requires RangesChain(w, i, rss, end)
    requires RangesOf(w, UpRange(end), rs, UpRange(end) + RANGE_WORDS * |rs|)
    ensures RangesChain(w, i, rss + [rs], 2 * (UpRange(end) + RANGE_WORDS * |rs|) + 2)
    decreases |rss|
  {
    hide RangesOf, UpRange;
    if rss == [] {
      assert (rss + [rs])[1..] == [];
    } else {
      var e := UpRange(i) + RANGE_WORDS * |rss[0]|;
      RangesChainAppend(w, 2 * e + 2, rss[1..], end, rs);
      assert (rss + [rs])[1..] == rss[1..] + [rs];
      RangesGrow(w, 2 * e + 2, rss[1..], end);
    }
  }

  lemma {:induction false} RangesGrow(w: seq<Unit>, i: nat, rss: seq<seq<Range>>, end: nat)
    requires RangesChain(w, i, rss, end)
    ensures i <= end
    decreases |rss|
  {
    hide RangesOf;
    if rss != [] {
      RangesGrow(w, 2 * (UpRange(i) + RANGE_WORDS * |rss[0]|) + 2, rss[1..], end);
    }
  }

  lemma {:induction false} RangesChainLaid(w: seq<Unit>, i: nat, rss: seq<seq<Range>>, end: nat)
    requires RangesChain(w, i, rss, end)
    ensures RangesAt(w, i, rss)
    decreases |rss|
  {
    hide ItemsAt, Long, UpRange;
    if rss != [] {
      RangesChainLaid(w, 2 * (UpRange(i) + RANGE_WORDS * |rss[0]|) + 2, rss[1..], end);
    }
  }

  /** The device paths lie before the ranges and stay as they are. */
  lemma {:induction false} PathsFrame(w: seq<Unit>, v: seq<Unit>, i: nat, ps: seq<seq<Unit>>, end: nat)
    requires PathsAt(w, i, ps) && PathsEnd(i, ps) <= end <= |w| && end <= |v| && v[..end] == w[..end]
    ensures PathsAt(v, i, ps)
    decreases |ps|
  {
    hide StringAt;
    if ps == [] {
      assert v[i] == v[..end][i] == w[i];
    } else {
      PathsBound(i + |ps[0]| + 1, ps[1..]);
      StringFrame(w, v, i, ps[0], end);
      PathsFrame(w, v, i + |ps[0]| + 1, ps[1..], end);
    }
  }

  lemma {:induction false} PathsBound(i: nat, ps: seq<seq<Unit>>)
    ensures i < PathsEnd(i, ps)
    decreases |ps|
  {
    if ps != [] {
      PathsBound(i + |ps[0]| + 1, ps[1..]);
    }
  }

  lemma {:induction false} PathsInside(w: seq<Unit>, i: nat, ps: seq<seq<Unit>>)
    requires PathsAt(w, i, ps)
    ensures PathsEnd(i, ps) <= |w|
    decreases |ps|
  {
    hide StringAt;
    if ps != [] {
      PathsInside(w, i + |ps[0]| + 1, ps[1..]);
    }
  }
}
