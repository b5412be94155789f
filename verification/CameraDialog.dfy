/** The dialog's own walk over an accepted list. It skips the entries of the first camera only, so
    behind every later camera it stands at the second word of its entries, if it has any. */
module CameraDialog {
  import opened Words
  import opened CameraList

  /** A line of the camera box: the name, and the word where its formats are looked for. */
  datatype Item = Item(name: seq<Unit>, at: nat)

  /** The lines added, and whether the walk has stayed inside the list. */
  datatype Dialog = Dialog(items: seq<Item>, inside: bool)

  // ---- The walk ----------------------------------------------------------------------

  /** The first entry from word k on without a compression; None if the list ends before one. */
  function Skip(w: seq<Unit>, k: nat): (q: Option<nat>)
    ensures q.Some? ==> k <= q.value && 2 * q.value + 2 <= |w|
    decreases |w| - 2 * k
  {
    if 2 * k + 2 > |w| then None
    else if Long(w, k) == 0 then Some(k)
    else Skip(w, k + ENTRY_WORDS)
  }

  function Skipped(w: seq<Unit>, at: nat, first: bool): (q: Option<nat>)
    ensures q.Some? ==> at <= q.value
  {
    if first then Skip(w, at) else Some(at)
  }

  function Walk(w: seq<Unit>, k: nat, first: bool): Dialog
    requires w != [] && w[|w| - 1] == 0
    decreases |w| - 2 * k
  {
    if 2 * k >= |w| then Dialog([], false)
    else if w[2 * k] == 0 then Dialog([], true)
    else
      var j := StringEnd(w, 2 * k, |w| - 1);
      var item := Item(w[2 * k..j - 1], Up(j));
      var q := Skipped(w, Up(j), first);
      if q == None then Dialog([item], false)
      else
        var d := Walk(w, q.value + 1, false);
        Dialog([item] + d.items, d.inside)
  }

  /** The formats listed from word k on, and whether reading them stays inside the list. */
  function Formats(w: seq<Unit>, k: nat): (r: (seq<seq<Unit>>, bool))
    decreases |w| - 2 * k
  {
    if 2 * k + 2 > |w| then ([], false)
    else if Long(w, k) == 0 then ([], true)
    else if 2 * (k + ENTRY_WORDS) > |w| then ([], false)
    else
      var r := Formats(w, k + ENTRY_WORDS);
      ([w[2 * k..2 * (k + ENTRY_WORDS)]] + r.0, r.1)
  }

  lemma WalkOne(w: seq<Unit>, k: nat, first: bool, j: nat)
    requires w != [] && w[|w| - 1] == 0 && 2 * k < |w| && w[2 * k] != 0 && j == StringEnd(w, 2 * k, |w| - 1)
    ensures var item, q := Item(w[2 * k..j - 1], Up(j)), Skipped(w, Up(j), first);
            && (q == None ==> Walk(w, k, first) == Dialog([item], false))
            && (q.Some? ==>
                  var d := Walk(w, q.value + 1, false);
                  Walk(w, k, first) == Dialog([item] + d.items, d.inside))
  {
    hide Skipped, StringEnd;
  }

  // ---- Where it should stand ---------------------------------------------------------

  /** The lines of a list laid out from word k on. */
  function Places(cs: seq<Camera>, k: nat): (r: seq<Item>)
    ensures |r| == |cs|
    decreases |cs|
  {
    if cs == [] then [] else [Item(cs[0].name, EntriesAt(cs[0], k))] + Places(cs[1..], Behind(cs[0], k))
  }

  predicate RightAt(d: Dialog, cs: seq<Camera>, k: nat, p: nat)
    requires p < |cs|
  {
    p < |d.items| && d.items[p] == Places(cs, k)[p]
  }

  function FirstBare(es: seq<seq<Unit>>): (n: nat)
    requires EntriesSized(es)
    ensures n <= |es|
  {
    if es == [] || Long(es[0], 0) == 0 then 0 else 1 + FirstBare(es[1..])
  }

  /** The entry the walk takes for the end of the camera's entries, if it does: behind the first
      camera one without a compression, behind any other simply the first. */
  function Stuck(c: Camera, first: bool): (s: Option<nat>)
    requires EntriesSized(c.entries)
    ensures s.Some? ==> s.value < |c.entries|
  {
    var n := if first then FirstBare(c.entries) else 0;
    if n < |c.entries| then Some(n) else None
  }

  /** All cameras up to p have a name, and the walk is stuck in none before it. */
  predicate Reached(cs: seq<Camera>, p: nat, first: bool)
    requires p < |cs| && forall q :: 0 <= q < |cs| ==> EntriesSized(cs[q].entries)
  {
    && (forall q :: 0 <= q <= p ==> cs[q].name != [])
    && (forall q :: 0 <= q < p ==> Stuck(cs[q], first && q == 0) == None)
  }

  /** All cameras have a name, and the walk is stuck in none, or only in the last and there before a
      word that begins with a zero character. */
  predicate WalkedInFull(cs: seq<Camera>, first: bool)
    requires forall q :: 0 <= q < |cs| ==> EntriesSized(cs[q].entries)
  {
    && (forall q :: 0 <= q < |cs| ==> cs[q].name != [])
    && (forall q :: 0 <= q < |cs| && Stuck(cs[q], first && q == 0).Some? ==>
          q == |cs| - 1 && cs[q].entries[Stuck(cs[q], first && q == 0).value][2] == 0)
  }

  predicate AllSized(cs: seq<Camera>) {
    forall q :: 0 <= q < |cs| ==> EntriesSized(cs[q].entries)
  }

  // ---- One camera --------------------------------------------------------------------

  lemma {:induction false} SkipItems(w: seq<Unit>, k: nat, es: seq<seq<Unit>>)
    requires ItemsAt(w, k, ENTRY_WORDS, es) && EntriesSized(es)
    requires 2 * (k + ENTRY_WORDS * |es|) + 2 <= |w| && Long(w, k + ENTRY_WORDS * |es|) == 0
    ensures Skip(w, k) == Some(k + ENTRY_WORDS * FirstBare(es))
    ensures Formats(w, k) == (es[..FirstBare(es)], true)
    decreases |es|
  {
    if es != [] {
      var e := es[0];
      assert e[0] == w[2 * k] && e[1] == w[2 * k + 1];
      if Long(e, 0) != 0 {
        assert EntriesSized(es[1..]);
        SkipItems(w, k + ENTRY_WORDS, es[1..]);
        assert es[..FirstBare(es)] == [e] + es[1..][..FirstBare(es[1..])];
      }
    }
  }

  lemma {:induction false} EntryAt(w: seq<Unit>, k: nat, es: seq<seq<Unit>>, s: nat)
    requires ItemsAt(w, k, ENTRY_WORDS, es) && EntriesSized(es) && s < |es|
    ensures 2 * (k + ENTRY_WORDS * s) + 2 < |w| && w[2 * (k + ENTRY_WORDS * s) + 2] == es[s][2]
    decreases s
  {
    if s == 0 {
      assert es[0][2] == w[2 * k..2 * (k + ENTRY_WORDS)][2];
    } else {
      EntryAt(w, k + ENTRY_WORDS, es[1..], s - 1);
    }
  }

  /** Where the walk stands behind a camera. */
  function Onward(c: Camera, k: nat, first: bool): (next: nat)
    requires EntriesSized(c.entries)
    ensures next <= Behind(c, k) && (next == Behind(c, k) <==> Stuck(c, first) == None)
  {
    var s := Stuck(c, first);
    if s.Some? then EntriesAt(c, k) + ENTRY_WORDS * s.value + 1 else Behind(c, k)
  }

  lemma NameEnds(w: seq<Unit>, k: nat, c: Camera)
    requires CameraAt(w, k, c) && 2 * Behind(c, k) < |w| && c.name != []
    ensures w[2 * k] != 0 && StringEnd(w, 2 * k, |w| - 1) == 2 * k + |c.name| + 1
    ensures w[2 * k..2 * k + |c.name|] == c.name
  {
    assert w[2 * k] == c.name[0] && c.name[0] in c.name;
    hide StringAt, StringEnd, Long, ItemsAt, Up;
    StringSeen(w, 2 * k, c.name);
    StringEndAt(w, 2 * k, c.name, |w| - 1);
  }

  lemma EntriesLie(w: seq<Unit>, k: nat, c: Camera)
    requires CameraAt(w, k, c)
    ensures EntriesSized(c.entries) && ItemsAt(w, EntriesAt(c, k), ENTRY_WORDS, c.entries)
    ensures var q := EntriesAt(c, k) + ENTRY_WORDS * |c.entries|;
            q + 1 == Behind(c, k) && 2 * q + 2 <= |w| && Long(w, q) == 0
    ensures k < EntriesAt(c, k) < Behind(c, k)
  {
  }

  lemma SkippedIs(w: seq<Unit>, k: nat, c: Camera, first: bool)
    requires CameraAt(w, k, c)
    ensures var next := Onward(c, k, first); next > 0 && Skipped(w, EntriesAt(c, k), first) == Some(next - 1)
    ensures Stuck(c, first).Some? ==>
              var next := Onward(c, k, first);
              2 * next < |w| && w[2 * next] == c.entries[Stuck(c, first).value][2]
  {
    hide CameraAt, Long, ItemsAt, Up, Skip, FirstBare, Formats, EntriesAt, Behind;
    EntriesLie(w, k, c);
    SkipItems(w, EntriesAt(c, k), c.entries);
    if Stuck(c, first).Some? {
      EntryAt(w, EntriesAt(c, k), c.entries, Stuck(c, first).value);
    }
  }

  /** The walk at a camera with a name. */
  lemma WalkCamera(w: seq<Unit>, k: nat, c: Camera, first: bool)
    requires w != [] && w[|w| - 1] == 0 && CameraAt(w, k, c) && 2 * Behind(c, k) < |w| && c.name != []
    ensures var d := Walk(w, Onward(c, k, first), false);
            Walk(w, k, first) == Dialog([Item(c.name, EntriesAt(c, k))] + d.items, d.inside)
  {
    hide CameraAt, StringEnd, Up, Skipped, Stuck, Onward, Walk, Behind;
    NameEnds(w, k, c);
    SkippedIs(w, k, c, first);
    WalkOne(w, k, first, 2 * k + |c.name| + 1);
  }

  /** A camera without a name ends the walk. */
  lemma WalkEnds(w: seq<Unit>, k: nat, c: Camera, first: bool)
    requires w != [] && w[|w| - 1] == 0 && CameraAt(w, k, c) && c.name == []
    ensures Walk(w, k, first) == Dialog([], true)
  {
  }

  /** A camera the walk stands at is listed with its formats, up to one without a compression. */
  lemma FormatsListed(w: seq<Unit>, k: nat, c: Camera)
    requires CameraAt(w, k, c)
    ensures Formats(w, EntriesAt(c, k)) == (c.entries[..FirstBare(c.entries)], true)
  {
    SkipItems(w, EntriesAt(c, k), c.entries);
  }

  lemma {:induction false} NoneBare(es: seq<seq<Unit>>)
    requires EntriesOk(es)
    ensures FirstBare(es) == |es|
  {
    if es != [] {
      assert EntriesOk(es[1..]);
      NoneBare(es[1..]);
    }
  }

  // ---- A walk left behind ------------------------------------------------------------

  lemma {:induction false} StringEndBefore(w: seq<Unit>, i: nat, z: nat, end: nat)
    requires i <= z <= end < |w| && w[z] == 0
    ensures StringEnd(w, i, end) <= z + 1
    decreases z - i
  {
    if i < z && w[i] != 0 {
      StringEndBefore(w, i + 1, z, end);
    }
  }

  lemma PlacesNext(cs: seq<Camera>, k: nat, p: nat)
    requires p < |cs|
    ensures Places(cs, k)[p] ==
            if p == 0 then Item(cs[0].name, EntriesAt(cs[0], k)) else Places(cs[1..], Behind(cs[0], k))[p - 1]
  {
  }

  /** Once the walk stands before the camera it should be at, it never catches up. */
  lemma {:induction false} NeverCatchesUp(w: seq<Unit>, k: nat, cs: seq<Camera>, k': nat, p: nat)
    requires w != [] && w[|w| - 1] == 0 && LaidOut(w, k, cs) && k' < k && 2 * k <= |w| && w[2 * (k - 1)] == 0
    requires p < |cs|
    ensures !RightAt(Walk(w, k', false), cs, k, p)
    decreases p
  {
    hide CameraAt, Long, StringEnd, Up, EntriesAt, Behind, Walk, Places;
    var c := cs[0];
    PlacesNext(cs, k, p);
    TerminatorZero(w, k, c);
    EntriesLie(w, k, c);
    if w[2 * k'] == 0 {
      EndsHere(w, k');
    } else {
      StringEndBefore(w, 2 * k', 2 * (k - 1), |w| - 1);
      var j := StringEnd(w, 2 * k', |w| - 1);
      WalkOne(w, k', false, j);
      if p > 0 {
        NeverCatchesUp(w, Behind(c, k), cs[1..], Up(j) + 1, p - 1);
      }
    }
  }

  lemma EndsHere(w: seq<Unit>, k: nat)
    requires w != [] && w[|w| - 1] == 0 && 2 * k < |w| && w[2 * k] == 0
    ensures forall first :: Walk(w, k, first) == Dialog([], true)
  {
  }

  lemma TerminatorZero(w: seq<Unit>, k: nat, c: Camera)
    requires CameraAt(w, k, c)
    ensures 2 * Behind(c, k) <= |w| && w[2 * (Behind(c, k) - 1)] == 0
  {
  }

  // ---- Exactly when it is right ------------------------------------------------------

  lemma {:induction false} LaidSized(w: seq<Unit>, k: nat, cs: seq<Camera>)
    requires LaidOut(w, k, cs)
    ensures AllSized(cs)
    decreases |cs|
  {
    if cs != [] {
      LaidSized(w, Behind(cs[0], k), cs[1..]);
      forall q | 0 <= q < |cs| ensures EntriesSized(cs[q].entries) {
        assert q > 0 ==> cs[q] == cs[1..][q - 1];
      }
    }
  }

  lemma ReachedNext(cs: seq<Camera>, p: nat, first: bool)
    requires p < |cs| && AllSized(cs)
    ensures p == 0 ==> (Reached(cs, p, first) <==> cs[0].name != [])
    ensures AllSized(cs[1..])
    ensures p > 0 ==>
              (Reached(cs, p, first) <==>
               cs[0].name != [] && Stuck(cs[0], first) == None && Reached(cs[1..], p - 1, false))
  {
    hide Stuck;
    if p > 0 {
      var rest := cs[1..];
      assert forall q :: 0 <= q < p ==> rest[q] == cs[q + 1];
      if Reached(cs, p, first) {
        forall q | 0 <= q < p - 1 ensures Stuck(rest[q], false && q == 0) == None {
          assert Stuck(cs[q + 1], first && q + 1 == 0) == None;
        }
      } else if cs[0].name != [] && Stuck(cs[0], first) == None && Reached(rest, p - 1, false) {
        forall q | 0 <= q < p ensures Stuck(cs[q], first && q == 0) == None {
          assert q > 0 ==> Stuck(rest[q - 1], false && q - 1 == 0) == None;
        }
      }
    }
  }

  /** Line p is the p-th camera exactly if the walk is stuck in none before it. */
  lemma {:induction false} PositionRightIff(w: seq<Unit>, k: nat, cs: seq<Camera>, first: bool, p: nat)
    requires w != [] && w[|w| - 1] == 0 && LaidOut(w, k, cs) && p < |cs|
    ensures AllSized(cs) && (RightAt(Walk(w, k, first), cs, k, p) <==> Reached(cs, p, first))
    decreases p
  {
    hide CameraAt, Long, Up, EntriesAt, Behind, Walk, Reached, Stuck, Onward, AllSized;
    var c := cs[0];
    var k1 := Behind(c, k);
    LaidSized(w, k, cs);
    LaidOutBounds(w, k1, cs[1..]);
    ReachedNext(cs, p, first);
    TerminatorZero(w, k, c);
    if c.name == [] {
      WalkEnds(w, k, c, first);
      Unnamed(cs, p, first);
    } else {
      WalkCamera(w, k, c, first);
      var next := Onward(c, k, first);
      if p > 0 {
        if next == k1 {
          PositionRightIff(w, k1, cs[1..], false, p - 1);
        } else {
          NeverCatchesUp(w, k1, cs[1..], next, p - 1);
        }
      }
    }
  }

  lemma Unnamed(cs: seq<Camera>, p: nat, first: bool)
    requires p < |cs| && AllSized(cs) && cs[0].name == []
    ensures !Reached(cs, p, first)
  {
  }

  lemma InFullNext(cs: seq<Camera>, first: bool)
    requires cs != [] && AllSized(cs)
    ensures AllSized(cs[1..])
    ensures WalkedInFull(cs, first) <==>
              && cs[0].name != []
              && match Stuck(cs[0], first)
                 case None => WalkedInFull(cs[1..], false)
                 case Some(s) => |cs| == 1 && cs[0].entries[s][2] == 0
  {
    hide Stuck;
    var rest := cs[1..];
    assert forall q :: 0 <= q < |rest| ==> rest[q] == cs[q + 1];
    if WalkedInFull(cs, first) {
      forall q | 0 <= q < |rest| && Stuck(rest[q], false && q == 0).Some?
        ensures q == |rest| - 1 && rest[q].entries[Stuck(rest[q], false && q == 0).value][2] == 0
      {
        assert Stuck(cs[q + 1], first && q + 1 == 0).Some?;
      }
    } else if cs[0].name != [] && Stuck(cs[0], first) == None && WalkedInFull(rest, false) {
      forall q | 0 <= q < |cs| && Stuck(cs[q], first && q == 0).Some?
        ensures q == |cs| - 1 && cs[q].entries[Stuck(cs[q], first && q == 0).value][2] == 0
      {
        assert Stuck(rest[q - 1], false && q - 1 == 0).Some?;
      }
    }
  }

  lemma SameRest(x: Item, xs: seq<Item>, ys: seq<Item>)
    ensures [x] + xs == [x] + ys <==> xs == ys
  {
    assert ([x] + xs)[1..] == xs && ([x] + ys)[1..] == ys;
  }

  lemma WalkStarts(w: seq<Unit>, k: nat)
    requires w != [] && w[|w| - 1] == 0 && 2 * k < |w|
    ensures Walk(w, k, false) == Dialog([], true) <==> w[2 * k] == 0
  {
    hide StringEnd;
  }

  /** The walk lists exactly the cameras laid out, and stays inside the list, exactly if it is stuck
      in none, or in the last only and before a zero character. */
  lemma {:induction false} ExactIff(w: seq<Unit>, k: nat, cs: seq<Camera>, first: bool)
    requires w != [] && w[|w| - 1] == 0 && LaidOut(w, k, cs)
    ensures AllSized(cs) && (Walk(w, k, first) == Dialog(Places(cs, k), true) <==> WalkedInFull(cs, first))
    decreases |cs|
  {
    hide CameraAt, Long, Up, EntriesAt, Behind, Walk, WalkedInFull, Stuck, Onward, AllSized;
    LaidSized(w, k, cs);
    if cs == [] {
      EndsHere(w, k);
      NoneStuck(first);
    } else {
      var c := cs[0];
      var k1 := Behind(c, k);
      LaidOutBounds(w, k1, cs[1..]);
      InFullNext(cs, first);
      TerminatorZero(w, k, c);
      if c.name == [] {
        WalkEnds(w, k, c, first);
      } else {
        WalkCamera(w, k, c, first);
        SkippedIs(w, k, c, first);
        var next := Onward(c, k, first);
        SameRest(Item(c.name, EntriesAt(c, k)), Walk(w, next, false).items, Places(cs[1..], k1));
        if next == k1 {
          ExactIff(w, k1, cs[1..], false);
        } else if |cs| == 1 {
          WalkStarts(w, next);
        } else {
          NeverCatchesUp(w, k1, cs[1..], next, 0);
        }
      }
    }
  }

  lemma NoneStuck(first: bool)
    ensures WalkedInFull([], first)
  {
  }

  /** A line that is right offers the formats of its camera, up to one without a compression. */
  lemma {:induction false} RightFormats(w: seq<Unit>, k: nat, cs: seq<Camera>, p: nat)
    requires LaidOut(w, k, cs) && p < |cs|
    ensures AllSized(cs) && Formats(w, Places(cs, k)[p].at) == (Choices(cs[p]), true)
    ensures CameraOk(cs[p]) ==> Choices(cs[p]) == cs[p].entries
    decreases p
  {
    hide CameraAt, Formats, Long, Up, EntriesAt, Behind, FirstBare, CameraOk;
    LaidSized(w, k, cs);
    PlacesNext(cs, k, p);
    if p == 0 {
      FormatsListed(w, k, cs[0]);
    } else {
      RightFormats(w, Behind(cs[0], k), cs[1..], p - 1);
    }
    OkChoices(cs[p]);
  }

  function Choices(c: Camera): (r: seq<seq<Unit>>)
    requires EntriesSized(c.entries)
    ensures r <= c.entries
  {
    c.entries[..FirstBare(c.entries)]
  }

  lemma OkChoices(c: Camera)
    requires EntriesSized(c.entries)
    ensures CameraOk(c) ==> Choices(c) == c.entries
  {
    if CameraOk(c) {
      NoneBare(c.entries);
    }
  }

  // ---- Lists with names and compressions ---------------------------------------------

  lemma OkStuck(c: Camera, first: bool)
    requires CameraOk(c)
    ensures c.name != [] && Stuck(c, first) == if first || c.entries == [] then None else Some(0)
  {
    NoneBare(c.entries);
  }

  lemma AllOkSized(cs: seq<Camera>)
    requires AllOk(cs)
    ensures AllSized(cs)
  {
    forall q | 0 <= q < |cs| ensures EntriesSized(cs[q].entries) {
      assert CameraOk(cs[q]);
    }
  }

  /** Line p of the dialog is camera p exactly if no camera between the first and it has an entry. */
  lemma PositionIff(w: seq<Unit>, cs: seq<Camera>, p: nat)
    requires w != [] && w[|w| - 1] == 0 && LaidOut(w, 0, cs) && AllOk(cs) && p < |cs|
    ensures RightAt(Walk(w, 0, true), cs, 0, p) <==> forall q :: 1 <= q < p ==> cs[q].entries == []
  {
    AllOkSized(cs);
    hide Walk, LaidOut, RightAt, CameraOk, Stuck;
    PositionRightIff(w, 0, cs, true, p);
    forall q | 0 <= q < |cs|
      ensures cs[q].name != []
      ensures Stuck(cs[q], true && q == 0) == if q == 0 || cs[q].entries == [] then None else Some(0)
    {
      assert CameraOk(cs[q]);
      OkStuck(cs[q], true && q == 0);
    }
  }

  /** So the first two lines are always right. */
  lemma FirstTwoRight(w: seq<Unit>, cs: seq<Camera>, p: nat)
    requires w != [] && w[|w| - 1] == 0 && LaidOut(w, 0, cs) && AllOk(cs) && p < |cs| && p < 2
    ensures RightAt(Walk(w, 0, true), cs, 0, p)
  {
    hide *;
    PositionIff(w, cs, p);
  }

  /** The dialog lists exactly the cameras laid out if and only if no camera behind the first has an
      entry, but for the last, if the second word of its first entry begins with a zero character. */
  lemma ListedIff(w: seq<Unit>, cs: seq<Camera>)
    requires w != [] && w[|w| - 1] == 0 && LaidOut(w, 0, cs) && AllOk(cs)
    ensures AllSized(cs)
    ensures Walk(w, 0, true) == Dialog(Places(cs, 0), true) <==>
              forall q :: 1 <= q < |cs| && cs[q].entries != [] ==> q == |cs| - 1 && cs[q].entries[0][2] == 0
  {
    AllOkSized(cs);
    hide Walk, LaidOut, Places, CameraOk, Stuck;
    ExactIff(w, 0, cs, true);
    forall q | 0 <= q < |cs|
      ensures cs[q].name != []
      ensures Stuck(cs[q], true && q == 0) == if q == 0 || cs[q].entries == [] then None else Some(0)
    {
      assert CameraOk(cs[q]);
      OkStuck(cs[q], true && q == 0);
    }
  }

  // ---- Two ordinary cameras ----------------------------------------------------------

  /** An entry of 640 x 480 at 30 frames a second. */
  const VGA: seq<Unit> := [1, 0, 0x280, 0x1e1e]

  const TWO: seq<Unit> := [0x41, 0, 1, 0, 0x280, 0x1e1e, 0, 0, 0x42, 0, 1, 0, 0x280, 0x1e1e, 0, 0, 0]

  lemma TwoLaidOut()
    ensures var cs := [Camera([0x41], [VGA]), Camera([0x42], [VGA])]; LaidOut(TWO, 0, cs) && AllOk(cs)
  {
    var a, b := Camera([0x41], [VGA]), Camera([0x42], [VGA]);
    assert TWO[2..6] == VGA && TWO[10..14] == VGA;
    assert ItemsAt(TWO, 3, ENTRY_WORDS, []) && ItemsAt(TWO, 7, ENTRY_WORDS, []);
    assert [VGA][1..] == [] && [a, b][1..] == [b] && [b][1..] == [];
    assert StringAt(TWO, 1, []) && StringAt(TWO, 9, []);
    assert CameraAt(TWO, 0, a) && CameraAt(TWO, 4, b);
    hide CameraAt;
    assert LaidOut(TWO, 8, []);
    assert LaidOut(TWO, 4, [b]);
  }

  /** The server's list of two cameras with one entry each is accepted, and yet the dialog makes a
      third line from width and height of the second camera, leaves the list, and finds no formats
      for that line inside it. */
  lemma ThirdCamera()
    ensures LaidOut(TWO, 0, [Camera([0x41], [VGA]), Camera([0x42], [VGA])]) && Validate(TWO)
    ensures Walk(TWO, 0, true) == Dialog([Item([0x41], 1), Item([0x42], 5), Item([0x280, 0x1e1e], 8)], false)
    ensures Formats(TWO, 8) == ([], false)
  {
    hide *;
    TwoLaidOut();
    LaidOutAccepted(TWO, [Camera([0x41], [VGA]), Camera([0x42], [VGA])]);
    TwoRead();
    WalkOne(TWO, 0, true, 2);
    WalkOne(TWO, 4, false, 10);
    WalkOne(TWO, 6, false, 15);
    Outside(TWO, 9, false);
    Places3([0x41], [0x42], [0x280, 0x1e1e]);
    FormatsOutside();
  }

  lemma TwoRead()
    ensures |TWO| == 17 && TWO[16] == 0 && TWO[0] != 0 && TWO[8] != 0 && TWO[12] != 0
    ensures StringEnd(TWO, 0, 16) == 2 && StringEnd(TWO, 8, 16) == 10 && StringEnd(TWO, 12, 16) == 15
    ensures TWO[0..1] == [0x41] && TWO[8..9] == [0x42] && TWO[12..14] == [0x280, 0x1e1e]
    ensures Up(2) == 1 && Up(10) == 5 && Up(15) == 8
    ensures Skipped(TWO, 1, true) == Some(3) && Skipped(TWO, 5, false) == Some(5) && Skipped(TWO, 8, false) == Some(8)
  {
    assert StringEnd(TWO, 14, 16) == 15;
    assert StringEnd(TWO, 13, 16) == 15;
    assert Skip(TWO, 3) == Some(3);
  }

  lemma Places3(a: seq<Unit>, b: seq<Unit>, c: seq<Unit>)
    ensures [Item(a, 1)] + ([Item(b, 5)] + ([Item(c, 8)] + [])) == [Item(a, 1), Item(b, 5), Item(c, 8)]
  {
  }

  lemma FormatsOutside()
    ensures Formats(TWO, 8) == ([], false)
  {
  }

  // ---- The dialog in place -----------------------------------------------------------

  /** `AddCameras`: nothing is listed from a list the validator does not accept. A line is added
      before the walk goes on, so the lines stay when it leaves the list. */
  method AddCameras(w: array<Unit>, cb: nat) returns (v: Verdict, items: seq<Item>, inside: bool)
    requires w.Length == cb / 2
    ensures v == ReadsBefore <==> cb == 2
    ensures v == Accepted <==> cb >= 6 && cb % 2 == 0 && Validate(w[..])
    ensures if v == Accepted then Dialog(items, inside) == Walk(w[..], 0, true) else items == [] && inside
  {
    v := ValidateFormats(w, cb);
    items, inside := [], true;
    if v == Accepted {
      items, inside := WalkList(w);
    }
  }

  method WalkList(w: array<Unit>) returns (items: seq<Item>, inside: bool)
    requires w.Length > 0 && w[w.Length - 1] == 0
    ensures Dialog(items, inside) == Walk(w[..], 0, true)
  {
    hide Walk, Skip, StringEnd;
    var k := 0;
    var m := 0;
    items := [];
    ghost var s := w[..];
    while true
      invariant m == |items| && w[..] == s
      invariant Walk(s, 0, true) == Dialog(items + Walk(s, k, m == 0).items, Walk(s, k, m == 0).inside)
      decreases w.Length - 2 * k
    {
      if 2 * k >= w.Length {
        Outside(s, k, m == 0);
        return items, false;
      }
      if w[2 * k] == 0 {
        EndsHere(s, k);
        return items, true;
      }
      var j := SkipString(w, 2 * k, w.Length - 1);
      WalkOne(s, k, m == 0, j);
      var item := Item(w[2 * k..j - 1], (j + 1) / 2);
      ghost var before, d := items, Walk(s, k, m == 0);
      items := items + [item];
      var q := Some(item.at);
      if m == 0 {
        q := SkipEntries(w, item.at);
      }
      if q == None {
        return items, false;
      }
      k, m := q.value + 1, m + 1;
      assert before + ([item] + Walk(s, k, false).items) == items + Walk(s, k, false).items;
    }
  }

  lemma Outside(w: seq<Unit>, k: nat, first: bool)
    requires w != [] && w[|w| - 1] == 0 && 2 * k >= |w|
    ensures Walk(w, k, first) == Dialog([], false)
  {
  }

  /** The loop over the first camera's entries; None if it leaves the list. */
  method SkipEntries(w: array<Unit>, k: nat) returns (r: Option<nat>)
    ensures r == Skip(w[..], k)
  {
    var q := k;
    while 2 * q + 2 <= w.Length && (w[2 * q] != 0 || w[2 * q + 1] != 0)
      invariant k <= q && Skip(w[..], q) == Skip(w[..], k)
      decreases w.Length - 2 * q
    {
      q := q + ENTRY_WORDS;
    }
    r := if 2 * q + 2 <= w.Length then Some(q) else None;
  }

  /** `OnSelChanged`: the formats of the line the user selects. */
  method OnSelChanged(w: array<Unit>, at: nat) returns (formats: seq<seq<Unit>>, inside: bool)
    ensures (formats, inside) == Formats(w[..], at)
  {
    var k := at;
    formats := [];
    assert forall x: seq<seq<Unit>> :: [] + x == x;
    assert forall x: seq<seq<Unit>> :: x + [] == x;
    while 2 * k + 2 <= w.Length && (w[2 * k] != 0 || w[2 * k + 1] != 0)
      invariant Formats(w[..], at) == (formats + Formats(w[..], k).0, Formats(w[..], k).1)
      decreases w.Length - 2 * k
    {
      if 2 * (k + ENTRY_WORDS) > w.Length {
        return formats, false;
      }
      ghost var before := formats;
      formats := formats + [w[2 * k..2 * (k + ENTRY_WORDS)]];
      assert forall x: seq<seq<Unit>> :: before + ([w[2 * k..2 * (k + ENTRY_WORDS)]] + x) == formats + x;
      k := k + ENTRY_WORDS;
    }
    inside := 2 * k + 2 <= w.Length;
  }
}
