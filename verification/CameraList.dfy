/** The camera list the client receives: what the server lays out and how the client validates
    it. The buffer is a sequence of 16-bit characters; names start at characters, and entries and
    terminators at 32-bit words, the k-th of which is characters 2k and 2k + 1. */
module CameraList {
  type Unit = x: int | 0 <= x < 0x1_0000

  /** Size of an entry (`VFI`) in characters and in 32-bit words. */
  const ENTRY: nat := 4
  const ENTRY_WORDS: nat := 2

  function Long(w: seq<Unit>, k: nat): nat
    requires 2 * k + 2 <= |w|
  {
    var low: int, high: int := w[2 * k], w[2 * k + 1];
    low + 0x1_0000 * high
  }

  /** The first 32-bit word at or behind a character. */
  function Up(i: nat): (k: nat)
    ensures i <= 2 * k <= i + 1
  {
    (i + 1) / 2
  }

  // ---- Reading -----------------------------------------------------------------------

  /** Behind the zero that ends the string at i, given that there is one at `end`. */
  function StringEnd(w: seq<Unit>, i: nat, end: nat): (j: nat)
    requires i <= end < |w|
    ensures i < j <= end + 1
    decreases end - i
  {
    if i == end || w[i] == 0 then i + 1 else StringEnd(w, i + 1, end)
  }

  /** Behind the entries at word k: the first with no compression, or past the end. */
  function EntriesEnd(w: seq<Unit>, k: nat, end: nat): (q: nat)
    requires 2 * end < |w|
    ensures k <= q
    decreases if k < end then end - k else 0
  {
    if k < end && Long(w, k) != 0 then EntriesEnd(w, k + ENTRY_WORDS, end) else k
  }

  /** The camera loop of `ValidateFormats`. */
  predicate ScanFrom(w: seq<Unit>, k: nat, end: nat)
    requires k <= end && 2 * end < |w|
    decreases end - k
  {
    w[2 * k] == 0 ||
    var q := EntriesEnd(w, Up(StringEnd(w, 2 * k, 2 * end)), end);
    q < end && ScanFrom(w, q + 1, end)
  }

  /** `ValidateFormats`: an odd number of characters, a zero word and a zero character at the end,
      and a terminator before the end behind every camera's entries. */
  predicate Validate(w: seq<Unit>)
    requires |w| >= 3
  {
    && |w| % 2 == 1
    && var end := |w| / 2;
       Long(w, end - 1) == 0 && w[2 * end] == 0 && ScanFrom(w, 0, end)
  }

  // ---- What the server lays out ------------------------------------------------------

  /** A camera for the client: its name, and its entries as characters. */
  datatype Camera = Camera(name: seq<Unit>, entries: seq<seq<Unit>>)

  predicate EntriesSized(es: seq<seq<Unit>>) {
    forall k :: 0 <= k < |es| ==> |es[k]| == ENTRY
  }

  /** Entries a reader does not take for the end of the list. */
  predicate EntriesOk(es: seq<seq<Unit>>) {
    EntriesSized(es) && forall k :: 0 <= k < |es| ==> Long(es[k], 0) != 0
  }

  /** A camera as the server may write it: nothing keeps it from an empty name or from entries
      without a compression. */
  predicate CameraMade(c: Camera) {
    0 !in c.name && EntriesSized(c.entries)
  }

  predicate CameraOk(c: Camera) {
    c.name != [] && 0 !in c.name && EntriesOk(c.entries)
  }

  predicate AllOk(cs: seq<Camera>) {
    forall m :: 0 <= m < |cs| ==> CameraOk(cs[m])
  }

  lemma OkCons(c: Camera, rest: seq<Camera>)
    ensures AllOk([c] + rest) <==> CameraOk(c) && AllOk(rest)
  {
    hide CameraOk;
    var cs := [c] + rest;
    assert cs[0] == c && forall m :: 0 <= m < |rest| ==> cs[m + 1] == rest[m];
    if AllOk(cs) {
      forall m | 0 <= m < |rest| ensures CameraOk(rest[m]) {
        assert CameraOk(cs[m + 1]);
      }
    }
  }

  predicate StringAt(w: seq<Unit>, i: nat, s: seq<Unit>)
    decreases |s|
  {
    i < |w| && if s == [] then w[i] == 0 else w[i] == s[0] && StringAt(w, i + 1, s[1..])
  }

  /** Items of `size` words, one behind the other from word k on. */
  predicate ItemsAt(w: seq<Unit>, k: nat, size: nat, items: seq<seq<Unit>>)
    decreases |items|
  {
    items == [] ||
    (2 * (k + size) <= |w| && w[2 * k..2 * (k + size)] == items[0] && ItemsAt(w, k + size, size, items[1..]))
  }

  function EntriesAt(c: Camera, k: nat): nat {
    Up(2 * k + |c.name| + 1)
  }

  function Behind(c: Camera, k: nat): nat {
    EntriesAt(c, k) + ENTRY_WORDS * |c.entries| + 1
  }

  /** One camera at word k: name, padding of any content, entries, a zero word. */
  predicate CameraAt(w: seq<Unit>, k: nat, c: Camera) {
    && CameraMade(c) && StringAt(w, 2 * k, c.name) && ItemsAt(w, EntriesAt(c, k), ENTRY_WORDS, c.entries)
    && 2 * Behind(c, k) <= |w| && Long(w, Behind(c, k) - 1) == 0
  }

  /** The layout from word k on; a zero character ends the list. */
  predicate LaidOut(w: seq<Unit>, k: nat, cs: seq<Camera>)
    decreases |cs|
  {
    if cs == [] then 2 * k + 1 == |w| && w[2 * k] == 0
    else CameraAt(w, k, cs[0]) && LaidOut(w, Behind(cs[0], k), cs[1..])
  }

  // ---- Acceptance --------------------------------------------------------------------

  lemma {:induction false} StringEndAt(w: seq<Unit>, i: nat, s: seq<Unit>, end: nat)
    requires StringAt(w, i, s) && 0 !in s && i + |s| <= end < |w|
    ensures StringEnd(w, i, end) == i + |s| + 1
    decreases |s|
  {
    if s != [] {
      assert s[0] != 0;
      StringEndAt(w, i + 1, s[1..], end);
    }
  }

  lemma {:induction false} EntriesEndAt(w: seq<Unit>, k: nat, es: seq<seq<Unit>>, end: nat)
    requires ItemsAt(w, k, ENTRY_WORDS, es) && EntriesOk(es)
    requires k + ENTRY_WORDS * |es| < end && 2 * end < |w| && Long(w, k + ENTRY_WORDS * |es|) == 0
    ensures EntriesEnd(w, k, end) == k + ENTRY_WORDS * |es|
    decreases |es|
  {
    if es != [] {
      var e := es[0];
      assert e[0] == w[2 * k] && e[1] == w[2 * k + 1] && Long(e, 0) != 0;
      assert EntriesOk(es[1..]);
      EntriesEndAt(w, k + ENTRY_WORDS, es[1..], end);
    }
  }

  lemma {:induction false} LaidOutBounds(w: seq<Unit>, k: nat, cs: seq<Camera>)
    requires LaidOut(w, k, cs)
    ensures 2 * k < |w| && |w| % 2 == 1 && w[|w| - 1] == 0
    ensures cs != [] ==> 2 * k + 2 < |w| && Long(w, |w| / 2 - 1) == 0
    decreases |cs|
  {
    hide Long, StringAt, ItemsAt, CameraMade, Up;
    if cs != [] {
      LaidOutBounds(w, Behind(cs[0], k), cs[1..]);
      assert cs[1..] == [] ==> |w| / 2 == Behind(cs[0], k);
    }
  }

  /** One camera of the list, as the validator passes it. */
  lemma CameraScans(w: seq<Unit>, k: nat, c: Camera, end: nat)
    requires CameraAt(w, k, c) && CameraOk(c) && Behind(c, k) <= end && 2 * end < |w|
    ensures w[2 * k] != 0 && EntriesEnd(w, Up(StringEnd(w, 2 * k, 2 * end)), end) == Behind(c, k) - 1
  {
    assert w[2 * k] == c.name[0];
    hide Long, StringEnd, EntriesEnd, ItemsAt, StringAt, EntriesOk, Up;
    StringEndAt(w, 2 * k, c.name, 2 * end);
    EntriesEndAt(w, EntriesAt(c, k), c.entries, end);
  }

  lemma {:induction false} LaidOutScans(w: seq<Unit>, k: nat, cs: seq<Camera>, end: nat)
    requires LaidOut(w, k, cs) && AllOk(cs) && 2 * end + 1 == |w| && k <= end
    ensures ScanFrom(w, k, end)
    decreases |cs|
  {
    hide Long, CameraAt, CameraOk, AllOk, Up, StringEnd, EntriesEnd, Behind;
    if cs != [] {
      assert [cs[0]] + cs[1..] == cs;
      OkCons(cs[0], cs[1..]);
      LaidOutBounds(w, Behind(cs[0], k), cs[1..]);
      CameraScans(w, k, cs[0], end);
      LaidOutScans(w, Behind(cs[0], k), cs[1..], end);
    }
  }

  /** Every list the server lays out for at least one camera, all with a name and with
      compressions, is accepted. */
  lemma LaidOutAccepted(w: seq<Unit>, cs: seq<Camera>)
    requires LaidOut(w, 0, cs) && AllOk(cs) && cs != []
    ensures |w| >= 3 && Validate(w)
  {
    hide LaidOut, ScanFrom, Long, AllOk;
    LaidOutBounds(w, 0, cs);
    LaidOutScans(w, 0, cs, |w| / 2);
  }

  // ---- What the validator lists ------------------------------------------------------

  function Entries(w: seq<Unit>, k: nat, end: nat): (es: seq<seq<Unit>>)
    requires 2 * end < |w|
    decreases if k < end then end - k else 0
  {
    if k + ENTRY_WORDS <= end && Long(w, k) != 0
    then [w[2 * k..2 * (k + ENTRY_WORDS)]] + Entries(w, k + ENTRY_WORDS, end)
    else []
  }

  /** The cameras of an accepted list as the validator walks, and prints, them. */
  function Seen(w: seq<Unit>, k: nat, end: nat): seq<Camera>
    requires k <= end && 2 * end < |w| && ScanFrom(w, k, end)
    decreases end - k
  {
    if w[2 * k] == 0 then []
    else
      var j := StringEnd(w, 2 * k, 2 * end);
      [Camera(w[2 * k..j - 1], Entries(w, Up(j), end))] + Seen(w, EntriesEnd(w, Up(j), end) + 1, end)
  }

  lemma {:induction false} StringSeen(w: seq<Unit>, i: nat, s: seq<Unit>)
    requires StringAt(w, i, s)
    ensures i + |s| < |w| && w[i..i + |s|] == s
    decreases |s|
  {
    if s != [] {
      StringSeen(w, i + 1, s[1..]);
      assert w[i..i + |s|] == [w[i]] + w[i + 1..i + |s|];
    }
  }

  lemma {:induction false} EntriesSeen(w: seq<Unit>, k: nat, es: seq<seq<Unit>>, end: nat)
    requires ItemsAt(w, k, ENTRY_WORDS, es) && EntriesOk(es)
    requires k + ENTRY_WORDS * |es| < end && 2 * end < |w| && Long(w, k + ENTRY_WORDS * |es|) == 0
    ensures Entries(w, k, end) == es
    decreases |es|
  {
    if es != [] {
      var e := es[0];
      assert e[0] == w[2 * k] && e[1] == w[2 * k + 1] && Long(e, 0) != 0;
      assert EntriesOk(es[1..]);
      EntriesSeen(w, k + ENTRY_WORDS, es[1..], end);
    }
  }

  lemma CameraSeen(w: seq<Unit>, k: nat, c: Camera, end: nat)
    requires CameraAt(w, k, c) && CameraOk(c) && Behind(c, k) <= end && 2 * end < |w|
    ensures var j := StringEnd(w, 2 * k, 2 * end);
            w[2 * k..j - 1] == c.name && Entries(w, Up(j), end) == c.entries
  {
    hide Long, StringEnd, Entries, ItemsAt, StringAt, EntriesOk, Up;
    StringEndAt(w, 2 * k, c.name, 2 * end);
    StringSeen(w, 2 * k, c.name);
    EntriesSeen(w, EntriesAt(c, k), c.entries, end);
  }

  /** The validator lists exactly the cameras the server laid out, if all have a name and
      compressions. */
  lemma {:induction false} LaidOutSeen(w: seq<Unit>, k: nat, cs: seq<Camera>, end: nat)
    requires LaidOut(w, k, cs) && AllOk(cs) && 2 * end + 1 == |w| && k <= end
    ensures ScanFrom(w, k, end) && Seen(w, k, end) == cs
    decreases |cs|
  {
    hide Long, CameraAt, CameraOk, AllOk, Up, StringEnd, EntriesEnd, Behind, Entries;
    LaidOutScans(w, k, cs, end);
    if cs != [] {
      assert [cs[0]] + cs[1..] == cs;
      OkCons(cs[0], cs[1..]);
      LaidOutBounds(w, Behind(cs[0], k), cs[1..]);
      CameraScans(w, k, cs[0], end);
      CameraSeen(w, k, cs[0], end);
      LaidOutSeen(w, Behind(cs[0], k), cs[1..], end);
    }
  }

  lemma {:induction false} EntriesListed(w: seq<Unit>, k: nat, end: nat)
    requires 2 * end < |w|
    ensures EntriesOk(Entries(w, k, end))
    decreases if k < end then end - k else 0
  {
    if k + ENTRY_WORDS <= end && Long(w, k) != 0 {
      EntriesListed(w, k + ENTRY_WORDS, end);
    }
  }

  lemma {:induction false} StringEndZero(w: seq<Unit>, i: nat, end: nat)
    requires i <= end < |w|
    ensures 0 !in w[i..StringEnd(w, i, end) - 1]
    ensures w[i] != 0 && i < end ==> i + 1 < StringEnd(w, i, end)
    decreases end - i
  {
    if i < end && w[i] != 0 {
      StringEndZero(w, i + 1, end);
      var j := StringEnd(w, i + 1, end);
      assert w[i..j - 1] == [w[i]] + w[i + 1..j - 1];
    }
  }

  lemma NoneOk()
    ensures AllOk([])
  {
  }

  /** The validator lists no other cameras. */
  lemma {:induction false} ListedOk(w: seq<Unit>, k: nat, end: nat)
    requires k <= end && 2 * end < |w| && w[2 * end] == 0 && ScanFrom(w, k, end)
    ensures AllOk(Seen(w, k, end))
    decreases end - k
  {
    hide Long, EntriesOk, Entries, EntriesEnd, StringEnd, AllOk, Up;
    if w[2 * k] == 0 {
      NoneOk();
    } else {
      var j := StringEnd(w, 2 * k, 2 * end);
      StringEndZero(w, 2 * k, 2 * end);
      EntriesListed(w, Up(j), end);
      var c, next := Camera(w[2 * k..j - 1], Entries(w, Up(j), end)), EntriesEnd(w, Up(j), end) + 1;
      ListedOk(w, next, end);
      OkCons(c, Seen(w, next, end));
    }
  }

  /** A list is read in full exactly if every camera has a name and every entry a compression. */
  lemma ReadInFullIff(w: seq<Unit>, cs: seq<Camera>)
    requires LaidOut(w, 0, cs)
    ensures var end := |w| / 2;
            2 * end < |w| && (ScanFrom(w, 0, end) && Seen(w, 0, end) == cs <==> AllOk(cs))
  {
    hide LaidOut, ScanFrom, Seen, AllOk;
    LaidOutBounds(w, 0, cs);
    if AllOk(cs) {
      LaidOutSeen(w, 0, cs, |w| / 2);
    } else if ScanFrom(w, 0, |w| / 2) {
      ListedOk(w, 0, |w| / 2);
    }
  }

  // ---- The validator in place --------------------------------------------------------

  /** `wcslen` and the step over the terminator. */
  method SkipString(w: array<Unit>, i: nat, ghost end: nat) returns (j: nat)
    requires i <= end < w.Length && w[end] == 0
    ensures j == StringEnd(w[..], i, end)
  {
    j := i;
    while w[j] != 0
      invariant i <= j <= end && StringEnd(w[..], j, end) == StringEnd(w[..], i, end)
      decreases end - j
    {
      j := j + 1;
    }
    j := j + 1;
  }

  /** `ReadsBefore`: the look-back for the last word starts before the buffer. */
  datatype Verdict = Accepted | Refused | ReadsBefore

  /** `ValidateFormats` on any number of bytes. Sizes that are odd or a multiple of four are
      refused before anything is read; of the others only two bytes, the list of a server
      without cameras, make the look-back leave the buffer. From six bytes on the validator
      stays inside and terminates. */
  method ValidateFormats(w: array<Unit>, cb: nat) returns (v: Verdict)
    requires w.Length == cb / 2
    ensures v == ReadsBefore <==> cb == 2
    ensures cb < 6 && cb != 2 ==> v == Refused
    ensures cb >= 6 ==> (v == Accepted <==> cb % 2 == 0 && Validate(w[..]))
    ensures cb >= 6 && v == Accepted ==>
              cb % 4 == 2 && w[w.Length - 1] == 0 && w[w.Length - 2] == 0 && w[w.Length - 3] == 0
  {
    if cb % 2 != 0 || cb % 4 == 0 {
      return Refused;
    }
    if cb - 6 < 0 {
      return ReadsBefore;
    }
    var end := (cb - 2) / 4;
    if w[2 * (end - 1)] != 0 || w[2 * (end - 1) + 1] != 0 || w[2 * end] != 0 {
      return Refused;
    }
    var ok := WalkCameras(w, end);
    v := if ok then Accepted else Refused;
  }

  method WalkCameras(w: array<Unit>, end: nat) returns (ok: bool)
    requires 2 * end + 1 == w.Length && w[2 * end] == 0
    ensures ok <==> ScanFrom(w[..], 0, end)
  {
    var k := 0;
    while w[2 * k] != 0
      invariant k <= end && (ScanFrom(w[..], k, end) <==> ScanFrom(w[..], 0, end))
      decreases end - k
    {
      var j := SkipString(w, 2 * k, 2 * end);
      var q := (j + 1) / 2;
      while q < end && (w[2 * q] != 0 || w[2 * q + 1] != 0)
        invariant Up(j) <= q && EntriesEnd(w[..], q, end) == EntriesEnd(w[..], Up(j), end)
        decreases if q < end then end - q else 0
      {
        q := q + ENTRY_WORDS;
      }
      if q >= end {
        return false;
      }
      k := q + 1;
    }
    ok := true;
  }
}
