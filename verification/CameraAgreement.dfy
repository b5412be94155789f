/** From the devices to the lookup: what the client's list holds at a position is what the server
    finds there, for all positions exactly if no camera lost a range; and what the client's dialog
    makes of that list. */
module CameraAgreement {
  import opened Words
  import opened CameraList
  import opened CameraServer
  import opened CameraPins
  import opened CameraLookup
  import opened CameraCreate
  import opened CameraDialog

  /** The outcomes of the pins of the camera listed at this place. */
  function PinsAt(d: Device, c: Source, i: nat, p: nat, n: nat, m: nat): seq<Outcome>
    requires Room(i, p, n, m) && Listing(d, c, i, p, n, m).Some?
  {
    var s := Start(Shown(c, 2 * m - 4 * p).value, i, p, n, m);
    Outcomes(d, c.pins, s.cb, s.cb2)
  }

  /** No camera has an abandoned pin with entries. */
  predicate AllKept(d: Device, cs: seq<Source>, i: nat, p: nat, n: nat, m: nat)
    requires Room(i, p, n, m) && Listings(d, cs, i, p, n, m).Some?
    decreases |cs|
  {
    cs == [] ||
    var l := Listing(d, cs[0], i, p, n, m).value;
    ListingRoom(d, cs[0], i, p, n, m);
    && NothingLost(PinsAt(d, cs[0], i, p, n, m))
    && AllKept(d, cs[1..], RangesBehind(i, l.ranges), Behind(l.camera, p), n, m)
  }

  /** For a camera with truthful pins whose answers fit the buffer, that is so exactly if the room
      for entries behind its name does not run out inside a pin. */
  lemma KeptIff(d: Device, c: Source, rss: seq<seq<seq<Unit>>>, i: nat, p: nat, n: nat, m: nat)
    requires Room(i, p, n, m) && Listing(d, c, i, p, n, m).Some? && AllTruthful(rss) && c.pins == Answers(rss)
    requires AllBytes(rss) <= Start(Shown(c, 2 * m - 4 * p).value, i, p, n, m).cb
    ensures NothingLost(PinsAt(d, c, i, p, n, m)) <==>
              var capacity := Start(Shown(c, 2 * m - 4 * p).value, i, p, n, m).cb2 / VFI_BYTES;
              Offered(d, rss) <= capacity || exists k :: 0 <= k <= |rss| && Offered(d, rss[..k]) == capacity
  {
    hide Outcomes, NothingLost, AllTruthful, Answers, NoPinCut;
    var s := Start(Shown(c, 2 * m - 4 * p).value, i, p, n, m);
    NothingLostIff(d, rss, s.cb, s.cb2);
    NoPinCutMeans(d, rss, s.cb2 / VFI_BYTES);
  }

  /** A camera whose entries are those of its ranges. */
  predicate Matches(d: Device, l: Listed) {
    l.camera.entries == Mapped(d, l.ranges)
  }

  /** A camera has at most as many ranges as entries, and loses ranges exactly if it has fewer. */
  lemma ListingMatches(d: Device, c: Source, i: nat, p: nat, n: nat, m: nat)
    requires Room(i, p, n, m) && Listing(d, c, i, p, n, m).Some?
    ensures var l := Listing(d, c, i, p, n, m).value;
            && (NothingLost(PinsAt(d, c, i, p, n, m)) <==> Matches(d, l))
            && (Matches(d, l) <==> |l.ranges| == |l.camera.entries|)
            && |l.ranges| <= |l.camera.entries| && VFI_BYTES * |l.camera.entries| <= 2 * m
  {
    hide Outcomes, ClientEntries, NothingLost, Mapped;
    ListsAgree(d, PinsAt(d, c, i, p, n, m));
    ListLengths(d, PinsAt(d, c, i, p, n, m));
  }

  predicate AllMatch(d: Device, ls: seq<Listed>) {
    forall k :: 0 <= k < |ls| ==> Matches(d, ls[k])
  }

  predicate Counts(d: Device, ls: seq<Listed>, m: nat) {
    forall k :: 0 <= k < |ls| ==>
                  && |ls[k].ranges| <= |ls[k].camera.entries| && VFI_BYTES * |ls[k].camera.entries| <= 2 * m
                  && (Matches(d, ls[k]) <==> |ls[k].ranges| == |ls[k].camera.entries|)
  }

  lemma MatchFirst(d: Device, l: Listed, rest: seq<Listed>, m: nat)
    ensures AllMatch(d, [l] + rest) <==> Matches(d, l) && AllMatch(d, rest)
    ensures Counts(d, [l], m) && Counts(d, rest, m) ==> Counts(d, [l] + rest, m)
  {
    hide Matches;
    var ls := [l] + rest;
    assert ls[0] == l && forall k :: 0 <= k < |rest| ==> ls[k + 1] == rest[k];
    if AllMatch(d, ls) {
      forall k | 0 <= k < |rest| ensures Matches(d, rest[k]) {
        assert Matches(d, ls[k + 1]);
      }
    }
  }

  lemma {:induction false} KeptMatches(d: Device, cs: seq<Source>, i: nat, p: nat, n: nat, m: nat)
    requires Room(i, p, n, m) && Listings(d, cs, i, p, n, m).Some?
    ensures var ls := Listings(d, cs, i, p, n, m).value;
            Counts(d, ls, m) && (AllKept(d, cs, i, p, n, m) <==> AllMatch(d, ls))
    decreases |cs|
  {
    if cs != [] {
      ListingMatches(d, cs[0], i, p, n, m);
      ListingRoom(d, cs[0], i, p, n, m);
      assert Counts(d, [Listing(d, cs[0], i, p, n, m).value], m);
      hide Matches, Listing, PinsAt, NothingLost, RangesBehind, Behind, Counts, AllMatch;
      var ls := Listings(d, cs, i, p, n, m).value;
      var l := Listing(d, cs[0], i, p, n, m).value;
      KeptMatches(d, cs[1..], RangesBehind(i, l.ranges), Behind(l.camera, p), n, m);
      var rest := Listings(d, cs[1..], RangesBehind(i, l.ranges), Behind(l.camera, p), n, m).value;
      assert ls == [l] + rest;
      MatchFirst(d, l, rest, m);
    }
  }

  /** What the client's list holds at (i, j) is what the server finds there, and nothing else. */
  ghost predicate AgreeAt(d: Device, listed: seq<Camera>, rss: seq<seq<Range>>, i: nat, j: nat) {
    var f := Find(rss, 0, i, j);
    && (f.Some? <==> i < |listed| && j < |listed[i].entries|)
    && (f.Some? ==> f.value == (i, j) && i < |rss| && j < |rss[i]| && listed[i].entries[j] == d.entry(rss[i][j]))
  }

  lemma AgreeMatched(d: Device, ls: seq<Listed>, i: nat, j: nat)
    requires AllMatch(d, ls) && j < MIN_LONG
    ensures AgreeAt(d, Cameras(ls), Ranges(ls), i, j)
  {
    LookupExact(Ranges(ls), i, j);
    hide Find;
    assert i < |ls| ==> Matches(d, ls[i]);
  }

  lemma LostDisagrees(d: Device, ls: seq<Listed>, m: nat, k: nat)
    requires Counts(d, ls, m) && m < MIN_LONG && k < |ls| && !Matches(d, ls[k])
    ensures |ls[k].ranges| < MIN_LONG && !AgreeAt(d, Cameras(ls), Ranges(ls), k, |ls[k].ranges|)
  {
    hide Find, Matches;
    LookupExact(Ranges(ls), k, |ls[k].ranges|);
  }

  /** Both sides agree at every position below 2^31 exactly if nothing of any camera was lost. */
  lemma AgreeIff(d: Device, cs: seq<Source>, i0: nat, n: nat, m: nat)
    requires Room(i0, 0, n, m) && Listings(d, cs, i0, 0, n, m).Some? && m < MIN_LONG
    ensures var ls := Listings(d, cs, i0, 0, n, m).value;
            AllKept(d, cs, i0, 0, n, m) <==>
            forall i: nat, j: nat :: j < MIN_LONG ==> AgreeAt(d, Cameras(ls), Ranges(ls), i, j)
  {
    var ls := Listings(d, cs, i0, 0, n, m).value;
    KeptMatches(d, cs, i0, 0, n, m);
    hide AllKept, Listings, AgreeAt, Matches, Cameras, Ranges;
    if AllMatch(d, ls) {
      forall i: nat, j: nat | j < MIN_LONG ensures AgreeAt(d, Cameras(ls), Ranges(ls), i, j) {
        AgreeMatched(d, ls, i, j);
      }
    } else {
      var k :| 0 <= k < |ls| && !Matches(d, ls[k]);
      LostDisagrees(d, ls, m, k);
    }
  }

  /** A created list as the client's validator reads it: in full exactly if all cameras have a name
      and compressions, and then it is accepted. */
  lemma CreatedSeen(client: seq<Unit>, cs: seq<Camera>)
    requires LaidOut(client, 0, cs)
    ensures |client| % 2 == 1 && client[|client| - 1] == 0
    ensures AllOk(cs) <==> ScanFrom(client, 0, |client| / 2) && Seen(client, 0, |client| / 2) == cs
    ensures cs != [] ==> |client| >= 3 && (AllOk(cs) ==> Validate(client))
    ensures cs == [] ==> |client| == 1
  {
    hide ScanFrom, Seen, Validate, Long, AllOk;
    LaidOutBounds(client, 0, cs);
    ReadInFullIff(client, cs);
    if cs != [] {
      hide LaidOut;
      if AllOk(cs) {
        LaidOutAccepted(client, cs);
      }
    }
  }

  lemma {:induction false} PathLies(w: seq<Unit>, q: nat, ps: seq<seq<Unit>>, m: nat)
    requires PathsAt(w, q, ps) && m < |ps|
    ensures StringAt(w, q + PathStart(ps, m), ps[m])
    decreases |ps|
  {
    hide StringAt;
    if m > 0 {
      PathLies(w, q + |ps[0]| + 1, ps[1..], m - 1);
      StartNext(ps, m);
    }
  }

  lemma {:induction false} StartNext(ps: seq<seq<Unit>>, m: nat)
    requires 0 < m <= |ps|
    ensures PathStart(ps, m) == |ps[0]| + 1 + PathStart(ps[1..], m - 1)
    decreases m
  {
    if m > 1 {
      StartNext(ps, m - 1);
    }
  }

  /** What the lookup has found, in the client's terms. */
  lemma Found(d: Device, w: seq<Unit>, cs: seq<Source>, ls: seq<Listed>, i: nat, j: nat, hit: (nat, nat))
    requires ServerLaid(w, Paths(cs), Ranges(ls)) && AgreeAt(d, Cameras(ls), Ranges(ls), i, j) && |ls| == |cs|
    requires IsRange(w, Ranges(ls), hit.1, Find(Ranges(ls), 0, i, j))
    requires hit.0 == PathStart(Paths(cs), Find(Ranges(ls), 0, i, j).value.0)
    ensures i < |cs| && StringAt(w, hit.0, cs[i].path) && 2 * (hit.1 + RANGE_WORDS) <= |w|
    ensures j < |Cameras(ls)[i].entries|
    ensures Cameras(ls)[i].entries[j] == d.entry(w[2 * hit.1..2 * (hit.1 + RANGE_WORDS)])
  {
    hide Find, StringAt, PathsAt, RangesAt;
    PathLies(w, 0, Paths(cs), i);
  }

  /** What the dialog shows of an accepted list of these cameras. */
  ghost predicate DialogOf(cs: seq<Camera>, items: seq<Item>, inside: bool) {
    && AllSized(cs)
    && (Dialog(items, inside) == Dialog(Places(cs, 0), true) <==> WalkedInFull(cs, true))
    && (forall p :: 0 <= p < |cs| ==> (RightAt(Dialog(items, inside), cs, 0, p) <==> Reached(cs, p, true)))
  }

  lemma DialogShows(client: seq<Unit>, cs: seq<Camera>, items: seq<Item>, inside: bool)
    requires LaidOut(client, 0, cs) && client != [] && client[|client| - 1] == 0
    requires Dialog(items, inside) == Walk(client, 0, true)
    ensures DialogOf(cs, items, inside)
  {
    hide LaidOut, Walk, Places, WalkedInFull, Reached, RightAt;
    ExactIff(client, 0, cs, true);
    forall p | 0 <= p < |cs| ensures RightAt(Dialog(items, inside), cs, 0, p) <==> Reached(cs, p, true) {
      PositionRightIff(client, 0, cs, true, p);
    }
  }

  /** The user's choice of format j on line i of the dialog: the formats offered. */
  method Choose(client: array<Unit>, items: seq<Item>, i: nat, ghost cs: seq<Camera>, ghost inside: bool)
    returns (formats: seq<seq<Unit>>)
    requires LaidOut(client[..], 0, cs) && DialogOf(cs, items, inside)
    ensures i < |cs| && Reached(cs, i, true) ==> formats == Choices(cs[i])
  {
    hide LaidOut, Reached, Formats, WalkedInFull, Choices, Places;
    formats := [];
    if i < |items| {
      var within;
      formats, within := OnSelChanged(client, items[i].at);
    }
    if i < |cs| && Reached(cs, i, true) {
      assert RightAt(Dialog(items, inside), cs, 0, i);
      RightFormats(client[..], 0, cs, i);
    }
  }

  /** From the devices to the lookup: the server creates both lists, the client validates the one it
      is sent, its dialog lists the cameras, the user chooses format j on line i, and the server looks
      up (i, j). Without cameras the validator reads before the list. If all cameras have a name and
      compressions the list is accepted. Of an accepted list the dialog shows exactly the cameras under
      the condition of `WalkedInFull`, and line i is camera i exactly if the walk is stuck in none
      before; such a line offers the formats of camera i, and if nothing was lost the lookup yields the path
      of that camera and the range of the format chosen. */
  method Session(d: Device, buf: array<Unit>, out: array<Unit>, cs: seq<Source>, i: nat, j: nat)
    returns (v: Option<Verdict>, hit: Option<(nat, nat)>, items: seq<Item>, inside: bool, formats: seq<seq<Unit>>,
             ghost listed: seq<Camera>, ghost ls: seq<Listed>)
    requires DeviceOk(d) && SourcesOk(cs) && buf != out && buf.Length % 4 == 0 && out.Length % 2 == 0
    requires PathsAt(buf[..], 0, Paths(cs)) && PathsEnd(0, Paths(cs)) <= buf.Length < MIN_LONG && out.Length < MIN_LONG
    requires j < MIN_LONG
    modifies buf, out
    ensures var start := PathsEnd(0, Paths(cs));
            && (v.Some? <==> Listings(d, cs, start, 0, buf.Length, out.Length).Some?)
            && (v.Some? ==> ls == Listings(d, cs, start, 0, buf.Length, out.Length).value && listed == Cameras(ls))
    ensures v.Some? ==> |ls| == |cs|
    ensures v.Some? ==>
              forall k :: 0 <= k < |ls| <= |cs| ==>
                ls[k].camera.name == if cs[k].name.Some?
                                        && 2 * (|cs[k].name.value| + 1) <= 2 * out.Length - 4 * WordBehind(ls[..k])
                                     then cs[k].name.value else [0x2a]
    ensures v.Some? ==> (v.value == ReadsBefore <==> cs == []) && (cs != [] && AllOk(listed) ==> v.value == Accepted)
    ensures v == Some(Accepted) ==> DialogOf(listed, items, inside)
    ensures v == Some(Accepted) && i < |listed| && Reached(listed, i, true) ==>
              && formats == Choices(listed[i])
              && (AllKept(d, cs, PathsEnd(0, Paths(cs)), 0, buf.Length, out.Length) ==>
                    && (hit.Some? <==> j < |listed[i].entries|)
                    && (j < |formats| ==>
                          && hit.Some? && i < |cs| && StringAt(buf[..], hit.value.0, cs[i].path)
                          && 2 * (hit.value.1 + RANGE_WORDS) <= buf.Length
                          && formats[j] == d.entry(buf[2 * hit.value.1..2 * (hit.value.1 + RANGE_WORDS)])))
  {
    hide DeviceOk, Listings, AllKept, PathsAt, LaidOut, ServerLaid, Validate, ScanFrom, Seen, Find, StringAt;
    hide AllMatch, Counts, IsRange, PathStart, DialogOf, Reached, Walk, AllOk, Choices, WordBehind, InPlace, CharBehind;
    ghost var start := PathsEnd(0, Paths(cs));
    v, hit, items, inside, formats, listed := None, None, [], true, [], [];
    var end;
    end, ls := CreateInfo(d, buf, out, cs);
    if end == None {
      return;
    }
    listed := Cameras(ls);
    var client := new Unit[end.value](k requires 0 <= k < end.value <= out.Length reads out => out[k]);
    assert client[..] == out[..end.value];
    CreatedSeen(client[..], listed);
    var verdict;
    verdict, items, inside := AddCameras(client, 2 * end.value);
    v := Some(verdict);
    if verdict == Accepted {
      DialogShows(client[..], listed, items, inside);
      formats := Choose(client, items, i, listed, inside);
    }
    hit := GetFormatInfo(buf, i, j, Paths(cs), Ranges(ls));
    KeptMatches(d, cs, start, 0, buf.Length, out.Length);
    if AllMatch(d, ls) {
      AgreeMatched(d, ls, i, j);
      if hit.Some? {
        Found(d, buf[..], cs, ls, i, j, hit.value);
      }
    }
  }
}
