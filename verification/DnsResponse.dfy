/** A well-formed response, however its record names are written, yields its first wanted
    address. */
module DnsResponse {
  import opened Words
  import opened DnsSpec
  import opened DnsProof

  /** A record name spelled out, or the usual pointer to the question. */
  datatype RecordName = Literal(name: seq<Byte>) | ToQuestion

  /** `meta` is the class and the time to live. */
  datatype Record = Record(name: RecordName, kind: nat, meta: seq<Byte>, data: seq<Byte>)

  predicate NameOk(name: seq<Byte>) {
    LabelsShort(name) && NoEmptyLabel(name)
  }

  predicate RecordOk(r: Record) {
    && (r.name.Literal? ==> NameOk(r.name.name))
    && r.kind < 0x1_0000 && |r.meta| == 6 && |r.data| < 0x1_0000
  }

  predicate RecordsOk(rs: seq<Record>) {
    forall i :: 0 <= i < |rs| ==> RecordOk(rs[i])
  }

  function NameBytes(n: RecordName): (b: seq<Byte>)
    requires n.Literal? ==> NameOk(n.name)
    ensures |b| > 0
  {
    if n.Literal? then Encode(n.name) else [0xc0, 0x0c]
  }

  function Fixed(r: Record): (b: seq<Byte>)
    requires RecordOk(r)
    ensures |b| == RECORD_SIZE
  {
    [r.kind % 0x100, r.kind / 0x100] + r.meta + [|r.data| / 0x100, |r.data| % 0x100]
  }

  function RecordBytes(r: Record): (b: seq<Byte>)
    requires RecordOk(r)
  {
    NameBytes(r.name) + Fixed(r) + r.data
  }

  function RecordsBytes(rs: seq<Record>): (b: seq<Byte>)
    requires RecordsOk(rs)
  {
    if rs == [] then [] else RecordBytes(rs[0]) + RecordsBytes(rs[1..])
  }

  /** The answer the caller should get: the first wanted record among the announced ones. */
  function FirstWanted(rs: seq<Record>, count: nat, queryType: nat): Result
    requires rs != [] && count > 0
  {
    if Wanted(queryType, rs[0].kind, rs[0].data) then Found(rs[0].data)
    else if |rs| == 1 || count == 1 then NoAddress
    else FirstWanted(rs[1..], count - 1, queryType)
  }

  /** The question name is where record names may point. */
  ghost predicate QuestionAt12(msg: seq<Byte>) {
    HEADER_SIZE <= |msg| && Left(msg, HEADER_SIZE, 0).Some? && Left(msg, HEADER_SIZE, 0).value > 0
  }

  lemma NameLeft(msg: seq<Byte>, at: nat, n: RecordName, depth: nat)
    requires n.Literal? ==> NameOk(n.name)
    requires QuestionAt12(msg) && At(msg, at, NameBytes(n)) && depth > 0
    ensures Left(msg, at, depth) == Some(|msg| - (at + |NameBytes(n)|))
  {
    if n.Literal? {
      hide Encode, LabelsShort, NoEmptyLabel, Left, Labels;
      WriterWalker(msg, at, n.name, depth);
    } else {
      assert msg[at..at + 2] == [0xc0, 0x0c];
      assert msg[at] == msg[at..at + 2][0] && msg[at + 1] == msg[at..at + 2][1];
      assert Labels(msg, at) == Pointer(at + 2, HEADER_SIZE);
      DeeperSame(msg, HEADER_SIZE, 0, depth - 1);
      hide Labels;
    }
  }

  lemma FixedFields(msg: seq<Byte>, p: nat, r: Record)
    requires RecordOk(r) && At(msg, p, Fixed(r))
    ensures Raw16(msg, p) == r.kind && Net16(msg, p + 8) == |r.data|
  {
    var f := Fixed(r);
    var w := msg[p..p + RECORD_SIZE];
    assert forall i :: 0 <= i < RECORD_SIZE ==> w[i] == msg[p + i];
    assert msg[p] == f[0] && msg[p + 1] == f[1] && msg[p + 8] == f[8] && msg[p + 9] == f[9];
  }

  /** Where the parts of a record lie. */
  lemma RecordParts(msg: seq<Byte>, at: nat, r: Record, rest: seq<Byte>)
    requires RecordOk(r) && At(msg, at, RecordBytes(r) + rest)
    ensures var p := at + |NameBytes(r.name)|;
            var body := p + RECORD_SIZE;
            && At(msg, at, NameBytes(r.name)) && At(msg, p, Fixed(r))
            && At(msg, body, r.data) && At(msg, body + |r.data|, rest)
  {
    assert RecordBytes(r) == NameBytes(r.name) + Fixed(r) + r.data;
    hide NameBytes, Fixed, RecordBytes, At, RecordOk;
    AtPart(msg, at, RecordBytes(r), rest);
    AtPart(msg, at, NameBytes(r.name) + Fixed(r), r.data);
    AtPart(msg, at, NameBytes(r.name), Fixed(r));
  }

  lemma AtBytes(msg: seq<Byte>, at: nat, b: seq<Byte>)
    requires At(msg, at, b)
    ensures at + |b| <= |msg| && msg[at..at + |b|] == b
  {
  }

  /** What the record loop reads at a record whose name ends at p. */
  predicate ReadsRecord(msg: seq<Byte>, at: nat, p: nat, kind: nat, data: seq<Byte>, depth: nat) {
    && at < p && p + RECORD_SIZE + |data| <= |msg|
    && Left(msg, at, depth) == Some(|msg| - p)
    && Raw16(msg, p) == kind && Net16(msg, p + 8) == |data|
    && msg[p + RECORD_SIZE..p + RECORD_SIZE + |data|] == data
  }

  /** One turn of the record loop. */
  lemma AnswersUnfold(msg: seq<Byte>, at: nat, p: nat, kind: nat, data: seq<Byte>, count: nat, queryType: nat,
                      depth: nat)
    requires count > 0 && ReadsRecord(msg, at, p, kind, data, depth)
    ensures var next := p + RECORD_SIZE + |data|;
            Answers(msg, at, count, queryType, depth) ==
            if Wanted(queryType, kind, data) then Found(data)
            else if next == |msg| || count == 1 then NoAddress
            else Answers(msg, next, count - 1, queryType, depth)
  {
    hide Raw16, Net16, Wanted, Left;
  }

  lemma ReadsTogether(msg: seq<Byte>, at: nat, p: nat, kind: nat, data: seq<Byte>, depth: nat)
    requires at < p && p + RECORD_SIZE + |data| <= |msg|
    requires Left(msg, at, depth) == Some(|msg| - p)
    requires Raw16(msg, p) == kind && Net16(msg, p + 8) == |data|
    requires msg[p + RECORD_SIZE..p + RECORD_SIZE + |data|] == data
    ensures ReadsRecord(msg, at, p, kind, data, depth)
  {
  }

  lemma RecordRead(msg: seq<Byte>, at: nat, r: Record, rest: seq<Byte>, depth: nat)
    requires RecordOk(r) && QuestionAt12(msg) && depth > 0 && At(msg, at, RecordBytes(r) + rest)
    ensures NameBytes(r.name) != []
    ensures ReadsRecord(msg, at, at + |NameBytes(r.name)|, r.kind, r.data, depth)
  {
    var p := at + |NameBytes(r.name)|;
    hide *;
    RecordParts(msg, at, r, rest);
    NameLeft(msg, at, r.name, depth);
    FixedFields(msg, p, r);
    AtBytes(msg, p + RECORD_SIZE, r.data);
    ReadsTogether(msg, at, p, r.kind, r.data, depth);
  }

  /** What a turn of the loop must do at record r when `next` follows it. */
  predicate Turn(msg: seq<Byte>, at: nat, next: nat, r: Record, count: nat, queryType: nat, depth: nat)
    requires count > 0
  {
    && at < next <= |msg|
    && Answers(msg, at, count, queryType, depth) ==
       if Wanted(queryType, r.kind, r.data) then Found(r.data)
       else if next == |msg| || count == 1 then NoAddress
       else Answers(msg, next, count - 1, queryType, depth)
  }

  lemma AnswersTurn(msg: seq<Byte>, at: nat, r: Record, rest: seq<Byte>, count: nat, queryType: nat, depth: nat)
    requires RecordOk(r) && QuestionAt12(msg) && depth > 0 && count > 0
    requires At(msg, at, RecordBytes(r) + rest)
    ensures Turn(msg, at, at + |RecordBytes(r)|, r, count, queryType, depth)
  {
    var p := at + |NameBytes(r.name)|;
    assert |RecordBytes(r)| == p + RECORD_SIZE + |r.data| - at;
    hide RecordBytes, NameBytes, QuestionAt12, Wanted, Answers, At, RecordOk, Left, Raw16, Net16;
    RecordRead(msg, at, r, rest, depth);
    AnswersUnfold(msg, at, p, r.kind, r.data, count, queryType, depth);
  }

  lemma RecordsFirst(msg: seq<Byte>, at: nat, rs: seq<Record>)
    requires RecordsOk(rs) && rs != [] && At(msg, at, RecordsBytes(rs))
    ensures var next := at + |RecordBytes(rs[0])|;
            && At(msg, at, RecordBytes(rs[0]) + RecordsBytes(rs[1..])) && At(msg, next, RecordsBytes(rs[1..]))
            && next + |RecordsBytes(rs[1..])| == at + |RecordsBytes(rs)|
            && (RecordsBytes(rs[1..]) == [] <==> |rs| == 1) && RecordsOk(rs[1..]) && RecordOk(rs[0])
  {
    assert RecordsBytes(rs) == RecordBytes(rs[0]) + RecordsBytes(rs[1..]);
    NotEmpty(rs[1..]);
    hide RecordBytes, RecordsBytes, At, RecordOk;
    AtPart(msg, at, RecordBytes(rs[0]), RecordsBytes(rs[1..]));
  }

  lemma {:induction false} AnswersFirst(msg: seq<Byte>, at: nat, rs: seq<Record>, count: nat, queryType: nat,
                                        depth: nat)
    requires RecordsOk(rs) && rs != [] && count > 0 && QuestionAt12(msg) && depth > 0
    requires At(msg, at, RecordsBytes(rs)) && at + |RecordsBytes(rs)| == |msg|
    ensures at <= |msg| && Answers(msg, at, count, queryType, depth) == FirstWanted(rs, count, queryType)
    decreases |rs|
  {
    assert RecordOk(rs[0]) && RecordsOk(rs[1..]);
    var r, next := rs[0], at + |RecordBytes(rs[0])|;
    hide RecordBytes, RecordsBytes, QuestionAt12, Wanted, Answers, At, RecordOk, RecordsOk;
    RecordsFirst(msg, at, rs);
    AnswersTurn(msg, at, r, RecordsBytes(rs[1..]), count, queryType, depth);
    if !Wanted(queryType, r.kind, r.data) && |rs| > 1 && count > 1 {
      AnswersFirst(msg, next, rs[1..], count - 1, queryType, depth);
    }
  }

  lemma NotEmpty(rs: seq<Record>)
    requires RecordsOk(rs)
    ensures RecordsBytes(rs) == [] <==> rs == []
  {
    if rs != [] {
      assert |RecordBytes(rs[0])| > 0;
    }
  }

  lemma ResponseWanted(header: seq<Byte>, name: seq<Byte>, question: seq<Byte>, rs: seq<Record>, queryType: nat,
                       depth: nat)
    requires |header| == HEADER_SIZE && ResponseCode(header) == 0 && Net16(header, 6) > 0
    requires NameOk(name) && |question| == QUESTION_SIZE && RecordsOk(rs) && rs != [] && depth > 0
    ensures var msg := header + Encode(name) + question + RecordsBytes(rs);
            Response(msg, Raw16(header, 0), queryType, depth) == FirstWanted(rs, Net16(header, 6), queryType)
  {
    hide Encode, RecordsBytes, LabelsShort, NoEmptyLabel, FirstWanted, Answers;
    var msg := header + Encode(name) + question + RecordsBytes(rs);
    var q := HEADER_SIZE + |name| + 2;
    assert At(msg, 0, header + Encode(name) + question + RecordsBytes(rs));
    AtPart(msg, 0, header + Encode(name) + question, RecordsBytes(rs));
    AtPart(msg, 0, header + Encode(name), question);
    AtPart(msg, 0, header, Encode(name));
    assert forall i :: 0 <= i < HEADER_SIZE ==> msg[i] == header[i];
    WriterWalker(msg, HEADER_SIZE, name, 0);
    WriterWalker(msg, HEADER_SIZE, name, depth);
    AnswersFirst(msg, q + QUESTION_SIZE, rs, Net16(header, 6), queryType, depth);
  }

  /** What the query asks for: to a query of type 1 (A), an A record with four bytes that are not all zero;
      to one of type 28 (AAAA), an AAAA record with sixteen bytes. The types are the first two bytes behind
      the name of a record, high byte first. */
  predicate IsAddress(queryType: nat, r: Record)
    requires RecordOk(r)
  {
    || (queryType == 0x0100 && Fixed(r)[..2] == [0, 1] && |r.data| == 4 && exists i :: 0 <= i < 4 && r.data[i] != 0)
    || (queryType == 0x1c00 && Fixed(r)[..2] == [0, 28] && |r.data| == 16)
  }

  lemma WantedIs(queryType: nat, r: Record)
    requires RecordOk(r)
    ensures Wanted(queryType, r.kind, r.data) <==> IsAddress(queryType, r)
  {
    var f := Fixed(r);
    assert f[..2] == [f[0], f[1]];
    if |r.data| == 4 {
      assert r.data == [r.data[0], r.data[1], r.data[2], r.data[3]];
    }
  }

  /** Record k is the first of the announced ones that the query asks for. */
  predicate FirstAt(rs: seq<Record>, count: nat, queryType: nat, k: nat)
    requires RecordsOk(rs)
  {
    k < |rs| && k < count && IsAddress(queryType, rs[k]) && forall j :: 0 <= j < k ==> !IsAddress(queryType, rs[j])
  }

  lemma {:induction false} FirstWantedIs(rs: seq<Record>, count: nat, queryType: nat, k: nat)
    requires RecordsOk(rs) && rs != [] && count > 0
    ensures FirstAt(rs, count, queryType, k) ==> FirstWanted(rs, count, queryType) == Found(rs[k].data)
    ensures (forall j :: 0 <= j < |rs| && j < count ==> !IsAddress(queryType, rs[j])) ==>
              FirstWanted(rs, count, queryType) == NoAddress
    decreases |rs|
  {
    hide Wanted, IsAddress, RecordOk;
    assert RecordOk(rs[0]);
    WantedIs(queryType, rs[0]);
    if !IsAddress(queryType, rs[0]) && |rs| > 1 && count > 1 {
      FirstWantedIs(rs[1..], count - 1, queryType, if k > 0 then k - 1 else 0);
      assert forall j :: 0 <= j < |rs| - 1 ==> rs[1..][j] == rs[j + 1];
    }
  }

  /** A header without an error: the identification is bytes 0 and 1, low byte first, the response code the
      low half of byte 3, and the number of answers bytes 6 and 7, high byte first. */
  predicate HeaderOk(header: seq<Byte>, xid: nat, count: nat) {
    && |header| == 12 && header[0] == xid % 0x100 && header[1] == xid / 0x100 && header[3] % 0x10 == 0
    && header[6] == count / 0x100 && header[7] == count % 0x100
  }

  lemma HeaderIs(header: seq<Byte>, xid: nat, count: nat)
    requires HeaderOk(header, xid, count)
    ensures |header| == HEADER_SIZE && Raw16(header, 0) == xid && Net16(header, 6) == count && ResponseCode(header) == 0
  {
  }

  /** Any response to the query, with any question name: the first record asked for among those announced
      is the result, and without one there is no address. */
  lemma ResponseFirst(header: seq<Byte>, xid: nat, count: nat, name: seq<Byte>, question: seq<Byte>, rs: seq<Record>,
                      queryType: nat, depth: nat)
    requires HeaderOk(header, xid, count) && count > 0
    requires NameOk(name) && |question| == QUESTION_SIZE && RecordsOk(rs) && rs != [] && depth > 0
    ensures var msg := header + Encode(name) + question + RecordsBytes(rs);
            && (forall k: nat :: FirstAt(rs, count, queryType, k) ==>
                  Response(msg, xid, queryType, depth) == Found(rs[k].data))
            && ((forall k :: 0 <= k < |rs| && k < count ==> !IsAddress(queryType, rs[k])) ==>
                  Response(msg, xid, queryType, depth) == NoAddress)
  {
    HeaderIs(header, xid, count);
    hide Encode, RecordsBytes, NameOk, RecordsOk, FirstAt, FirstWanted, IsAddress, Response, HeaderOk, Raw16, Net16,
      ResponseCode;
    ResponseWanted(header, name, question, rs, queryType, depth);
    FirstWantedIs(rs, count, queryType, 0);
    forall k: nat | FirstAt(rs, count, queryType, k) ensures FirstWanted(rs, count, queryType) == Found(rs[k].data) {
      FirstWantedIs(rs, count, queryType, k);
    }
  }

  /** A host with an address resolves: an A record with four bytes not all zero, behind announced records of
      other types, answers a query of type A. */
  lemma HostResolves(header: seq<Byte>, xid: nat, count: nat, name: seq<Byte>, question: seq<Byte>,
                     before: seq<Record>, r: Record, after: seq<Record>, depth: nat)
    requires HeaderOk(header, xid, count) && |before| < count
    requires NameOk(name) && |question| == 4 && RecordsOk(before + [r] + after) && depth > 0
    requires forall b :: b in before ==> b.kind != 0x0100
    requires r.kind == 0x0100 && |r.data| == 4 && r.data != [0, 0, 0, 0]
    ensures Response(header + Encode(name) + question + RecordsBytes(before + [r] + after), xid, 0x0100, depth) ==
            Found(r.data)
  {
    hide Encode, RecordsBytes, NameOk, RecordsOk, FirstAt, FirstWanted, IsAddress, Response, HeaderOk;
    HostFirst(before, r, after, count);
    ResponseFirst(header, xid, count, name, question, before + [r] + after, 0x0100, depth);
  }

  lemma HostFirst(before: seq<Record>, r: Record, after: seq<Record>, count: nat)
    requires RecordsOk(before + [r] + after) && |before| < count
    requires forall b :: b in before ==> b.kind != 0x0100
    requires r.kind == 0x0100 && |r.data| == 4 && r.data != [0, 0, 0, 0]
    ensures FirstAt(before + [r] + after, count, 0x0100, |before|)
    ensures (before + [r] + after)[|before|] == r && before + [r] + after != []
  {
    var rs := before + [r] + after;
    hide IsAddress, RecordOk;
    assert rs[|before|] == r;
    assert forall j :: 0 <= j < |before| ==> rs[j] == before[j];
    forall j | 0 <= j <= |before| ensures IsAddress(0x0100, rs[j]) <==> j == |before| {
      assert RecordOk(rs[j]);
      WantedIs(0x0100, rs[j]);
    }
  }
}
