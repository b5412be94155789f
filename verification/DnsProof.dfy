/** Names round-trip through writer and walker, the walk ends exactly on acyclic names, and a
    well-formed response yields its first wanted address. */
module DnsProof {
  import opened Words
  import opened DnsSpec

  // ---- Termination of the walk -------------------------------------------------------

  lemma {:induction false} DeeperSame(msg: seq<Byte>, s: nat, n: nat, m: nat)
    requires s <= |msg| && n <= m && Left(msg, s, n).Some?
    ensures Left(msg, s, m) == Left(msg, s, n)
    decreases n
  {
    var e := Labels(msg, s);
    if e.Pointer? && e.target < |msg| && n > 0 {
      DeeperSame(msg, e.target, n - 1, m - 1);
    }
  }

  ghost function Unseen(n: nat, seen: set<nat>): set<nat> {
    set x: nat | x < n && x !in seen
  }

  lemma Shrinks(n: nat, seen: set<nat>, s: nat)
    requires s < n && s !in seen
    ensures Unseen(n, seen + {s}) < Unseen(n, seen)
  {
    assert s in Unseen(n, seen) && s !in Unseen(n, seen + {s});
  }

  /** The names reached from s by pointers never come back to one already seen. */
  ghost predicate Acyclic(msg: seq<Byte>, s: nat, seen: set<nat>)
    requires s <= |msg|
    decreases Unseen(|msg|, seen)
  {
    var t := Next(msg, s);
    t.Some? ==> s !in seen && (Shrinks(|msg|, seen, s); Acyclic(msg, t.value, seen + {s}))
  }

  lemma {:induction false} AcyclicEnds(msg: seq<Byte>, s: nat, seen: set<nat>) returns (n: nat)
    requires s <= |msg| && Acyclic(msg, s, seen)
    ensures Left(msg, s, n).Some?
    decreases Unseen(|msg|, seen)
  {
    var t := Next(msg, s);
    n := 0;
    if t.Some? {
      Shrinks(|msg|, seen, s);
      var m := AcyclicEnds(msg, t.value, seen + {s});
      n := m + 1;
    }
  }

  lemma {:induction false} EndsAcyclic(msg: seq<Byte>, s: nat, seen: set<nat>, n: nat)
    requires s <= |msg| && Left(msg, s, n).Some?
    requires forall x :: x in seen ==> x <= |msg| && Left(msg, x, n).None?
    ensures Acyclic(msg, s, seen)
    decreases n
  {
    var t := Next(msg, s);
    if t.Some? {
      forall x | x in seen ensures Left(msg, x, n - 1).None? {
        if Left(msg, x, n - 1).Some? { DeeperSame(msg, x, n - 1, n); }
      }
      if Left(msg, s, n - 1).Some? {
        EndsAcyclic(msg, s, seen, n - 1);
      } else {
        EndsAcyclic(msg, t.value, seen + {s}, n - 1);
      }
    }
  }

  /** `IsNameValid` returns exactly on names whose pointers form no cycle. */
  lemma TerminatesIffAcyclic(msg: seq<Byte>, s: nat)
    requires s <= |msg|
    ensures Terminates(msg, s) <==> Acyclic(msg, s, {})
  {
    if Terminates(msg, s) {
      var n: nat :| Left(msg, s, n).Some?;
      EndsAcyclic(msg, s, {}, n);
    }
    if Acyclic(msg, s, {}) {
      var n := AcyclicEnds(msg, s, {});
    }
  }

  /** Every masked pointer leads before the name it ends. */
  ghost predicate Backward(msg: seq<Byte>) {
    forall s: nat :: s <= |msg| && Next(msg, s).Some? ==> Next(msg, s).value < s
  }

  lemma {:induction false} BackwardTerminates(msg: seq<Byte>, s: nat)
    requires Backward(msg) && s <= |msg|
    ensures Left(msg, s, s).Some?
    decreases s
  {
    var t := Next(msg, s);
    if t.Some? {
      BackwardTerminates(msg, t.value);
      DeeperSame(msg, t.value, t.value, s - 1);
    }
  }

  lemma BackwardNames(msg: seq<Byte>, s: nat)
    requires Backward(msg) && s <= |msg|
    ensures Left(msg, s, |msg|).Some?
  {
    BackwardTerminates(msg, s);
    DeeperSame(msg, s, s, |msg|);
  }

  lemma {:induction false} BackwardAnswers(msg: seq<Byte>, at: nat, count: nat, queryType: nat)
    requires Backward(msg) && at <= |msg| && count > 0
    ensures Answers(msg, at, count, queryType, |msg|) != Diverges
    decreases |msg| - at
  {
    BackwardNames(msg, at);
    var left := Left(msg, at, |msg|).value;
    if left >= RECORD_SIZE {
      var p := |msg| - left;
      var n, body := Net16(msg, p + 8), p + RECORD_SIZE;
      if |msg| - body > n && count > 1 {
        BackwardAnswers(msg, body + n, count - 1, queryType);
      }
    }
    hide Left, Net16, Raw16, Wanted, Backward;
  }

  /** The answer walk of a packet whose masked pointers go strictly backwards terminates. */
  lemma BackwardResponds(msg: seq<Byte>, xid: nat, queryType: nat)
    requires Backward(msg)
    ensures Response(msg, xid, queryType, |msg|) != Diverges
  {
    if |msg| >= HEADER_SIZE {
      BackwardNames(msg, HEADER_SIZE);
      var left := Left(msg, HEADER_SIZE, |msg|).value;
      if left >= QUESTION_SIZE && Net16(msg, 6) > 0 {
        BackwardAnswers(msg, |msg| - left + QUESTION_SIZE, Net16(msg, 6), queryType);
      }
    }
    hide Left, Answers, Net16, Raw16, Backward;
  }

  /** A pointer to the start of its own name is not rejected: it recurs without end, although it
      points before itself when a label precedes it. */
  lemma SelfPointerDiverges(msg: seq<Byte>, s: nat)
    requires s <= |msg| && Next(msg, s) == Some(s)
    ensures !Terminates(msg, s)
  {
    assert !Acyclic(msg, s, {s});
    TerminatesIffAcyclic(msg, s);
  }

  lemma LabelThenSelfPointer()
    ensures var msg: seq<Byte> := [1, 0x61, 0xc0, 0];
            Labels(msg, 0) == Pointer(4, 0) && !Terminates(msg, 0)
  {
    var msg: seq<Byte> := [1, 0x61, 0xc0, 0];
    assert Labels(msg, 2) == Pointer(4, 0);
    SelfPointerDiverges(msg, 0);
  }

  // ---- Writer and walker -------------------------------------------------------------

  /** Where the walker stops in an encoded name: at the first empty label. */
  function Walked(name: seq<Byte>): (n: nat)
    ensures n <= |name| + 2
    decreases |name|
  {
    var d := Dot(name);
    if d == 0 then 1
    else if d == |name| then d + 2
    else d + 1 + Walked(name[d + 1..])
  }

  lemma {:induction false} WalkedAll(name: seq<Byte>)
    ensures Walked(name) == |name| + 2 <==> NoEmptyLabel(name)
    decreases |name|
  {
    var d := Dot(name);
    if 0 < d < |name| {
      WalkedAll(name[d + 1..]);
    }
    hide Dot;
  }

  predicate At(msg: seq<Byte>, at: nat, b: seq<Byte>) {
    at + |b| <= |msg| && msg[at..at + |b|] == b
  }

  lemma AtPart(msg: seq<Byte>, at: nat, a: seq<Byte>, b: seq<Byte>)
    requires At(msg, at, a + b)
    ensures At(msg, at, a) && At(msg, at + |a|, b)
  {
    var whole := msg[at..at + |a + b|];
    assert msg[at..at + |a|] == whole[..|a|] == (a + b)[..|a|] == a;
    assert msg[at + |a|..at + |a| + |b|] == whole[|a|..] == (a + b)[|a|..] == b;
  }

  /** What follows the first label on the wire. */
  function Tail(name: seq<Byte>): (b: seq<Byte>)
    requires LabelsShort(name)
    ensures |b| > 0
  {
    var d := Dot(name);
    if d < |name| then Encode(name[d + 1..]) else [0]
  }

  lemma FirstLabel(name: seq<Byte>)
    requires LabelsShort(name)
    ensures Dot(name) <= MAX_LABEL && Encode(name) == [Dot(name)] + name[..Dot(name)] + Tail(name)
  {
  }

  lemma InRange(msg: seq<Byte>, at: nat, b: seq<Byte>)
    requires At(msg, at, b)
    ensures at + |b| <= |msg|
  {
  }

  lemma LabelStep(msg: seq<Byte>, at: nat, d: nat)
    requires 0 < d <= MAX_LABEL && at + 1 + d <= |msg| && At(msg, at, [d])
    ensures Labels(msg, at) == Labels(msg, at + 1 + d)
  {
    assert msg[at] == msg[at..at + 1][0] == d;
  }

  lemma LabelEnd(msg: seq<Byte>, at: nat)
    requires At(msg, at, [0])
    ensures Labels(msg, at) == Terminated(at + 1)
  {
    assert msg[at] == msg[at..at + 1][0] == 0;
  }

  lemma LabelParts(msg: seq<Byte>, at: nat, d: Byte, chars: seq<Byte>, tail: seq<Byte>)
    requires At(msg, at, [d] + chars + tail)
    ensures At(msg, at, [d]) && At(msg, at + 1 + |chars|, tail)
  {
    AtPart(msg, at, [d] + chars, tail);
    AtPart(msg, at, [d], chars);
  }

  /** Where the first label and the rest of an encoded name lie. */
  lemma EncodedParts(msg: seq<Byte>, at: nat, name: seq<Byte>)
    requires LabelsShort(name) && At(msg, at, Encode(name))
    ensures Dot(name) <= MAX_LABEL && At(msg, at, [Dot(name)]) && At(msg, at + 1 + Dot(name), Tail(name))
  {
    hide Encode, LabelsShort, Dot, Tail, At;
    FirstLabel(name);
    LabelParts(msg, at, Dot(name), name[..Dot(name)], Tail(name));
  }

  lemma WalkedStep(name: seq<Byte>)
    ensures var d := Dot(name);
            Walked(name) == if d == 0 then 1 else if d == |name| then d + 2 else d + 1 + Walked(name[d + 1..])
  {
    hide Dot;
  }

  lemma TailStep(name: seq<Byte>)
    requires LabelsShort(name)
    ensures Dot(name) == |name| ==> Tail(name) == [0]
    ensures Dot(name) < |name| ==> LabelsShort(name[Dot(name) + 1..]) && Tail(name) == Encode(name[Dot(name) + 1..])
  {
    hide Encode, Dot;
  }

  lemma {:induction false} EncodedWalk(msg: seq<Byte>, at: nat, name: seq<Byte>)
    requires LabelsShort(name) && At(msg, at, Encode(name))
    ensures Labels(msg, at) == Terminated(at + Walked(name))
    decreases |name|
  {
    hide Encode, LabelsShort, Labels, At, Dot, Tail, Walked;
    var d := Dot(name);
    EncodedParts(msg, at, name);
    InRange(msg, at + 1 + d, Tail(name));
    WalkedStep(name);
    TailStep(name);
    if d == 0 {
      LabelEnd(msg, at);
    } else {
      LabelStep(msg, at, d);
      if d < |name| {
        EncodedWalk(msg, at + 1 + d, name[d + 1..]);
      } else {
        LabelEnd(msg, at + 1 + d);
      }
    }
  }

  /** The walker consumes exactly the strlen + 2 bytes the writer made if and only if the name
      has no empty label. */
  lemma WriterWalker(msg: seq<Byte>, at: nat, name: seq<Byte>, depth: nat)
    requires LabelsShort(name) && At(msg, at, Encode(name))
    ensures Left(msg, at, depth).Some?
    ensures Left(msg, at, depth) == Some(|msg| - (at + |name| + 2)) <==> NoEmptyLabel(name)
  {
    hide Encode, LabelsShort, Walked, NoEmptyLabel, Labels;
    EncodedWalk(msg, at, name);
    WalkedAll(name);
  }

  lemma LowTen(c: int, low: int)
    requires 0 <= c && 0 <= low < 0x100
    ensures (c * 0x100 + low) % 0x400 == c % 4 * 0x100 + low
  {
    assert c == c / 4 * 4 + c % 4;
  }

  /** A pointer takes two bytes; of both, the low ten bits are the target. It is valid exactly if the target is
      inside the message and the name there is valid. */
  lemma PointerIs(msg: seq<Byte>, at: nat, depth: nat, target: nat)
    requires at + 2 <= |msg| && msg[at] >= 0xc0 && target / 0x100 == msg[at] % 4 && target % 0x100 == msg[at + 1]
    ensures Left(msg, at, depth + 1) ==
            if target >= |msg| then Some(0)
            else if Left(msg, target, depth) == None then None
            else if Left(msg, target, depth) == Some(0) then Some(0)
            else Some(|msg| - at - 2)
  {
    var c: int, low: int := msg[at], msg[at + 1];
    LowTen(c, low);
    assert Labels(msg, at) == Pointer(at + 2, (c * 0x100 + low) % 0x400);
    hide Labels;
  }

  /** The wire form of a name is the name behind a length byte, with the length of the label that follows in
      place of each dot, and a zero byte. */
  lemma {:induction false} EncodeAt(name: seq<Byte>, i: nat)
    requires LabelsShort(name) && i <= |name|
    ensures var b := Encode(name);
            && b[0] == Dot(name) && b[|name| + 1] == 0
            && (i < |name| && name[i] != DOT ==> b[i + 1] == name[i])
            && (i < |name| && name[i] == DOT ==> b[i + 1] == Dot(name[i + 1..]))
    decreases |name|
  {
    var b, d := Encode(name), Dot(name);
    DotFirst(name);
    if d < |name| {
      var rest := name[d + 1..];
      assert b == [d] + name[..d] + Encode(rest);
      hide Encode, LabelsShort, Dot;
      EncodeAt(rest, if i > d then i - d - 1 else 0);
      if d < i < |name| {
        assert name[i + 1..] == rest[i - d..];
      }
    } else {
      assert b == [d] + name[..d] + [0];
      hide Encode, LabelsShort, Dot;
    }
  }

  lemma {:induction false} DotFirst(name: seq<Byte>)
    ensures forall j :: 0 <= j < Dot(name) ==> name[j] != DOT
    ensures Dot(name) < |name| ==> name[Dot(name)] == DOT
  {
    if name != [] && name[0] != DOT {
      DotFirst(name[1..]);
    }
  }
}
