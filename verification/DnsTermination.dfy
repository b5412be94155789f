/** Exactly when the walk over a response ends: every name it reaches must be free of pointer
    cycles. */
module DnsTermination {
  import opened Words
  import opened DnsSpec
  import opened DnsProof

  /** The bytes left behind a name on which the recursion ends. */
  ghost function Rest(msg: seq<Byte>, s: nat): (r: nat)
    requires s <= |msg| && Acyclic(msg, s, {})
    ensures r == 0 || r < |msg| - s
    ensures forall n: nat :: Left(msg, s, n).Some? ==> Left(msg, s, n).value == r
  {
    TerminatesIffAcyclic(msg, s);
    var m: nat :| Left(msg, s, m).Some?;
    assert forall n: nat :: Left(msg, s, n).Some? ==> Left(msg, s, n) == Left(msg, s, m) by {
      forall n: nat | Left(msg, s, n).Some? ensures Left(msg, s, n) == Left(msg, s, m) {
        DeeperSame(msg, s, if n < m then n else m, if n < m then m else n);
      }
    }
    Left(msg, s, m).value
  }

  /** Where the loop goes on behind the record whose name leaves `left` bytes, if it does. */
  function Onward(msg: seq<Byte>, left: nat, count: nat, queryType: nat): (next: Option<nat>)
    requires left <= |msg|
    ensures next.Some? ==> |msg| - left < next.value < |msg| && count != 1
  {
    if left < RECORD_SIZE then None
    else
      var p := |msg| - left;
      var kind, n, body := Raw16(msg, p), Net16(msg, p + 8), p + RECORD_SIZE;
      if |msg| - body <= n || count == 1 || Wanted(queryType, kind, msg[body..body + n]) then None
      else Some(body + n)
  }

  /** Every name the answer walk reaches from here is acyclic. */
  ghost predicate NamesEnd(msg: seq<Byte>, at: nat, count: nat, queryType: nat)
    requires at <= |msg| && count > 0
    decreases |msg| - at
  {
    && Acyclic(msg, at, {})
    && var next := Onward(msg, Rest(msg, at), count, queryType);
       next.Some? ==> at < next.value && NamesEnd(msg, next.value, count - 1, queryType)
  }

  lemma AnswersUnfold(msg: seq<Byte>, at: nat, count: nat, queryType: nat, depth: nat)
    requires at <= |msg| && count > 0
    ensures Left(msg, at, depth).None? ==> Answers(msg, at, count, queryType, depth) == Diverges
    ensures Left(msg, at, depth).Some? ==>
              var next := Onward(msg, Left(msg, at, depth).value, count, queryType);
              if next.None? then Answers(msg, at, count, queryType, depth) != Diverges
              else at < next.value
                   && Answers(msg, at, count, queryType, depth) == Answers(msg, next.value, count - 1, queryType, depth)
  {
    hide Left, Raw16, Net16, Wanted;
  }

  lemma {:induction false} AnswersDeeper(msg: seq<Byte>, at: nat, count: nat, queryType: nat, n: nat, m: nat)
    requires at <= |msg| && count > 0 && n <= m && Answers(msg, at, count, queryType, n) != Diverges
    ensures Answers(msg, at, count, queryType, m) != Diverges
    decreases |msg| - at
  {
    hide Answers, Onward, Left;
    AnswersUnfold(msg, at, count, queryType, n);
    AnswersUnfold(msg, at, count, queryType, m);
    DeeperSame(msg, at, n, m);
    var next := Onward(msg, Left(msg, at, n).value, count, queryType);
    if next.Some? {
      AnswersDeeper(msg, next.value, count - 1, queryType, n, m);
    }
  }

  lemma {:induction false} EndsIfNamesEnd(msg: seq<Byte>, at: nat, count: nat, queryType: nat) returns (depth: nat)
    requires at <= |msg| && count > 0 && NamesEnd(msg, at, count, queryType)
    ensures Answers(msg, at, count, queryType, depth) != Diverges
    decreases |msg| - at
  {
    hide Answers, Onward, Left, Acyclic;
    depth := AcyclicEnds(msg, at, {});
    assert Left(msg, at, depth).value == Rest(msg, at);
    AnswersUnfold(msg, at, count, queryType, depth);
    var next := Onward(msg, Rest(msg, at), count, queryType);
    if next.Some? {
      var deeper := EndsIfNamesEnd(msg, next.value, count - 1, queryType);
      var both := if depth < deeper then deeper else depth;
      DeeperSame(msg, at, depth, both);
      AnswersDeeper(msg, next.value, count - 1, queryType, deeper, both);
      AnswersUnfold(msg, at, count, queryType, both);
      depth := both;
    }
  }

  lemma {:induction false} NamesEndIfEnds(msg: seq<Byte>, at: nat, count: nat, queryType: nat, depth: nat)
    requires at <= |msg| && count > 0 && Answers(msg, at, count, queryType, depth) != Diverges
    ensures NamesEnd(msg, at, count, queryType)
    decreases |msg| - at
  {
    hide Answers, Onward, Left, Acyclic;
    AnswersUnfold(msg, at, count, queryType, depth);
    EndsAcyclic(msg, at, {}, depth);
    assert Left(msg, at, depth).value == Rest(msg, at);
    var next := Onward(msg, Rest(msg, at), count, queryType);
    if next.Some? {
      NamesEndIfEnds(msg, next.value, count - 1, queryType, depth);
    }
  }

  /** Every name the code reaches in a message, the question included, is acyclic. */
  ghost predicate MessageEnds(msg: seq<Byte>, xid: nat, queryType: nat) {
    |msg| < HEADER_SIZE || ResponseCode(msg) != 0 || Raw16(msg, 0) != xid || Net16(msg, 6) == 0 ||
    (Acyclic(msg, HEADER_SIZE, {})
     && var left := Rest(msg, HEADER_SIZE);
        left < QUESTION_SIZE || NamesEnd(msg, |msg| - left + QUESTION_SIZE, Net16(msg, 6), queryType))
  }

  /** The processing of a response ends if and only if every name it reaches is acyclic. */
  lemma ResponseEndsIff(msg: seq<Byte>, xid: nat, queryType: nat)
    ensures (exists depth :: Response(msg, xid, queryType, depth) != Diverges) <==> MessageEnds(msg, xid, queryType)
  {
    hide Answers, Acyclic, NamesEnd, Left;
    if |msg| < HEADER_SIZE || ResponseCode(msg) != 0 || Raw16(msg, 0) != xid || Net16(msg, 6) == 0 {
      assert Response(msg, xid, queryType, 0) != Diverges;
    } else {
      forall depth | Response(msg, xid, queryType, depth) != Diverges ensures MessageEnds(msg, xid, queryType) {
        EndsAcyclic(msg, HEADER_SIZE, {}, depth);
        var left := Rest(msg, HEADER_SIZE);
        assert Left(msg, HEADER_SIZE, depth).value == left;
        if left >= QUESTION_SIZE {
          NamesEndIfEnds(msg, |msg| - left + QUESTION_SIZE, Net16(msg, 6), queryType, depth);
        }
      }
      if MessageEnds(msg, xid, queryType) {
        MessageEndsDeep(msg, xid, queryType);
      }
    }
  }

  lemma MessageEndsDeep(msg: seq<Byte>, xid: nat, queryType: nat)
    requires MessageEnds(msg, xid, queryType)
    ensures exists depth :: Response(msg, xid, queryType, depth) != Diverges
  {
    hide Answers, Acyclic, NamesEnd, Left;
    if |msg| < HEADER_SIZE || ResponseCode(msg) != 0 || Raw16(msg, 0) != xid || Net16(msg, 6) == 0 {
      assert Response(msg, xid, queryType, 0) != Diverges;
    } else {
      var n := AcyclicEnds(msg, HEADER_SIZE, {});
      var left := Rest(msg, HEADER_SIZE);
      assert Left(msg, HEADER_SIZE, n).value == left;
      var depth := n;
      if left >= QUESTION_SIZE {
        var at, count := |msg| - left + QUESTION_SIZE, Net16(msg, 6);
        var m := EndsIfNamesEnd(msg, at, count, queryType);
        depth := if n < m then m else n;
        DeeperSame(msg, HEADER_SIZE, n, depth);
        AnswersDeeper(msg, at, count, queryType, m, depth);
      }
      assert Response(msg, xid, queryType, depth) != Diverges;
    }
  }
}
