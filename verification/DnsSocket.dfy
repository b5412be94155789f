/** The DNS code in place: the question writer over its buffer, the name walker and the answer
    walk with their running position and remaining length. */
module DnsSocket {
  import opened Words
  import opened DnsSpec
  import opened DnsResponse

  datatype WriteStatus = Written(size: nat) | InsufficientBuffer | InvalidName

  function QuestionHeader(xid: nat, recursion: bool): (h: seq<Byte>)
    requires xid < 0x1_0000
    ensures |h| == HEADER_SIZE
  {
    [xid % 0x100, xid / 0x100, if recursion then 1 else 0, 0, 0, 1, 0, 0, 0, 0, 0, 0]
  }

  /** The query for a name, in the Internet class. */
  function Question(name: seq<Byte>, kind: nat, xid: nat, recursion: bool): (q: seq<Byte>)
    requires LabelsShort(name) && kind < 0x1_0000 && xid < 0x1_0000
    ensures |q| == HEADER_SIZE + |name| + 2 + QUESTION_SIZE
  {
    QuestionHeader(xid, recursion) + Encode(name) + [kind % 0x100, kind / 0x100, 0, 1]
  }

  /** A server that echoes the identification and the question of a query, and sets the rest of the header
      to flags without an error and a number of answers, is heard: its first record of the type asked for is
      the result. */
  lemma EchoAnswered(name: seq<Byte>, kind: nat, xid: nat, recursion: bool, flags: seq<Byte>, count: nat,
                     rs: seq<Record>, depth: nat)
    requires NameOk(name) && kind < 0x1_0000 && xid < 0x1_0000 && RecordsOk(rs) && rs != [] && depth > 0
    requires |flags| == 10 && flags[1] % 0x10 == 0 && flags[4] == count / 0x100 && flags[5] == count % 0x100
             && count > 0
    ensures var q := Question(name, kind, xid, recursion);
            var msg := q[..2] + flags + q[12..] + RecordsBytes(rs);
            && (forall k: nat :: FirstAt(rs, count, kind, k) ==> Response(msg, xid, kind, depth) == Found(rs[k].data))
            && ((forall k :: 0 <= k < |rs| && k < count ==> !IsAddress(kind, rs[k])) ==>
                  Response(msg, xid, kind, depth) == NoAddress)
  {
    hide Encode, RecordsBytes, FirstAt, IsAddress, Response, RecordsOk, LabelsShort, NoEmptyLabel;
    var q, question := Question(name, kind, xid, recursion), [kind % 0x100, kind / 0x100, 0, 1];
    var header := q[..2] + flags;
    assert q == QuestionHeader(xid, recursion) + (Encode(name) + question);
    assert q[12..] == Encode(name) + question;
    assert header + Encode(name) + question == header + q[12..];
    assert forall k :: 2 <= k < 12 ==> header[k] == flags[k - 2];
    ResponseFirst(header, xid, count, name, question, rs, kind, depth);
  }

  /** The first label ends at its first dot, or with the name. */
  lemma {:induction false} DotIs(s: seq<Byte>, k: nat)
    requires k <= |s| && forall i :: 0 <= i < k ==> s[i] != DOT
    ensures Dot(s) >= k
    ensures k == |s| || s[k] == DOT ==> Dot(s) == k
  {
    if k > 0 {
      DotIs(s[1..], k - 1);
    }
  }

  lemma DotIn(name: seq<Byte>, i: nat, j: nat)
    requires i <= j <= |name| && forall k :: i <= k < j ==> name[k] != DOT
    ensures Dot(name[i..]) >= j - i
    ensures j == |name| || name[j] == DOT ==> Dot(name[i..]) == j - i
  {
    var s := name[i..];
    assert forall k :: 0 <= k < j - i ==> s[k] == name[i + k];
    assert j < |name| ==> s[j - i] == name[j];
    hide Dot;
    DotIs(s, j - i);
  }

  /** The budget after a character at j; it runs out only at 253. */
  lemma Budget(j: nat)
    requires j < MAX_NAME
    ensures U32(U32(MAX_NAME - 1 - j) - 1) == U32(MAX_NAME - 1 - (j + 1))
    ensures U32(MAX_NAME - 1 - (j + 1)) == 0 <==> j == 253
  {
  }

  /** One label: its length byte is patched when its end is found. The budget is decremented
      unchecked at its start and checked at every character. */
  method WriteLabel(buffer: array<Byte>, pos: nat, name: seq<Byte>, i: nat, budget: nat)
    returns (ok: bool, j: nat, left: nat)
    requires i <= |name| <= MAX_NAME && pos + (|name| - i) < buffer.Length && budget == MAX_NAME - i
    requires i > 253 ==> name[253] == DOT
    modifies buffer
    ensures buffer[..pos] == old(buffer[..pos])
    ensures i <= j <= |name|
    ensures ok ==>
              && j - i == Dot(name[i..]) <= MAX_LABEL && (j < |name| ==> name[j] == DOT)
              && (j > 253 ==> name[253] == DOT) && left == U32(MAX_NAME - 1 - j)
              && buffer[pos..pos + 1 + (j - i)] == [j - i] + name[i..j]
    ensures !ok ==> Dot(name[i..]) > MAX_LABEL || (253 < |name| && name[253] != DOT)
  {
    hide Dot, U32;
    j, left := i, U32(budget - 1);
    while j < |name| && name[j] != DOT
      invariant i <= j <= |name| && j - i <= MAX_LABEL && left == U32(MAX_NAME - 1 - j)
      invariant forall k :: i <= k < j ==> name[k] != DOT && buffer[pos + 1 + (k - i)] == name[k]
      invariant j > 253 ==> name[253] == DOT
      invariant forall k :: 0 <= k < pos ==> buffer[k] == old(buffer[k])
    {
      Budget(j);
      left := U32(left - 1);
      if j - i + 1 > MAX_LABEL || left == 0 {
        DotIn(name, i, j + 1);
        return false, j, left;
      }
      buffer[pos + 1 + (j - i)] := name[j];
      j := j + 1;
    }
    DotIn(name, i, j);
    buffer[pos] := j - i;
    assert buffer[pos + 1..pos + 1 + (j - i)] == name[i..j];
    assert buffer[pos..pos + 1 + (j - i)] == [buffer[pos]] + buffer[pos + 1..pos + 1 + (j - i)];
    ok := true;
  }

  /** What has been written so far, `head`, completed by the labels from i on, is the whole name. */
  ghost predicate Partial(head: seq<Byte>, name: seq<Byte>, i: nat) {
    && i <= |name| && |head| == i
    && (LabelsShort(name) <==> LabelsShort(name[i..]))
    && (LabelsShort(name) ==> head + Encode(name[i..]) == Encode(name))
  }

  lemma PartialStart(name: seq<Byte>)
    ensures Partial([], name, 0)
  {
    assert name[0..] == name;
  }

  lemma NoWrap(j: nat)
    requires j < MAX_NAME
    ensures U32(MAX_NAME - 1 - j) == MAX_NAME - (j + 1)
  {
  }

  lemma Joined(head: seq<Byte>, first: seq<Byte>, tail: seq<Byte>)
    ensures head + (first + tail) == head + first + tail
  {
  }

  lemma Labelled(s: seq<Byte>)
    ensures var d := Dot(s);
            && (LabelsShort(s) <==> d <= MAX_LABEL && (d < |s| ==> LabelsShort(s[d + 1..])))
            && (LabelsShort(s) ==> Encode(s) == [d] + s[..d] + if d < |s| then Encode(s[d + 1..]) else [0])
  {
  }

  lemma NextLabel(head: seq<Byte>, name: seq<Byte>, i: nat, j: nat)
    requires Partial(head, name, i) && i <= j < |name| && j - i == Dot(name[i..]) <= MAX_LABEL
    ensures Partial(head + ([j - i] + name[i..j]), name, j + 1)
  {
    hide Encode, LabelsShort, Dot;
    var s := name[i..];
    Labelled(s);
    assert s[..j - i] == name[i..j] && s[j - i + 1..] == name[j + 1..];
    if LabelsShort(name) {
      Joined(head, [j - i] + name[i..j], Encode(name[j + 1..]));
    }
  }

  lemma LabelledLast(head: seq<Byte>, s: seq<Byte>)
    requires Dot(s) == |s| <= MAX_LABEL
    ensures LabelsShort(s) && head + ([|s|] + s) + [0] == head + Encode(s)
  {
    hide Encode, LabelsShort, Dot;
    Labelled(s);
    assert s[..|s|] == s;
    Joined(head, [|s|] + s, [0]);
  }

  lemma PartialIs(head: seq<Byte>, name: seq<Byte>, i: nat)
    requires Partial(head, name, i)
    ensures LabelsShort(name) <==> LabelsShort(name[i..])
    ensures LabelsShort(name) ==> head + Encode(name[i..]) == Encode(name)
  {
  }

  lemma LastLabel(head: seq<Byte>, name: seq<Byte>, i: nat)
    requires Partial(head, name, i) && |name| - i == Dot(name[i..]) <= MAX_LABEL
    ensures LabelsShort(name) && head + ([|name| - i] + name[i..]) + [0] == Encode(name)
  {
    var s := name[i..];
    assert |s| == |name| - i;
    hide *;
    LabelledLast(head, s);
    PartialIs(head, name, i);
  }

  lemma LongLabel(head: seq<Byte>, name: seq<Byte>, i: nat)
    requires Partial(head, name, i) && Dot(name[i..]) > MAX_LABEL
    ensures !LabelsShort(name)
  {
    assert !LabelsShort(name[i..]);
  }

  lemma Acceptance(name: seq<Byte>)
    ensures !LabelsShort(name) || (253 < |name| && name[253] != DOT) ==> !Accepted(name)
    ensures LabelsShort(name) && (|name| > 253 ==> name[253] == DOT) ==> Accepted(name)
  {
  }

  /** The written part grows by what was put behind it. */
  lemma Extended(before: seq<Byte>, after: seq<Byte>, from: nat, mid: nat, end: nat)
    requires from <= mid <= |before| && mid <= end <= |after| && after[..mid] == before[..mid]
    ensures after[from..end] == before[from..mid] + after[mid..end]
    ensures after[..from] == before[..from]
  {
    assert after[from..mid] == after[..mid][from..] == before[..mid][from..] == before[from..mid];
    assert after[..from] == after[..mid][..from] == before[..mid][..from];
  }

  /** The labels of the name, behind the header. */
  method WriteName(buffer: array<Byte>, name: seq<Byte>) returns (ok: bool)
    requires |name| <= MAX_NAME && UDP_LENGTH <= buffer.Length
    modifies buffer
    ensures buffer[..HEADER_SIZE] == old(buffer[..HEADER_SIZE])
    ensures ok <==> Accepted(name)
    ensures ok ==> LabelsShort(name) && buffer[HEADER_SIZE..HEADER_SIZE + |name| + 2] == Encode(name)
  {
    hide Partial, Accepted, Encode, LabelsShort, Dot, U32;
    var i, cb: nat := 0, MAX_NAME;
    PartialStart(name);
    assert buffer[HEADER_SIZE..HEADER_SIZE + 0] == [];
    while true
      invariant i <= |name| && cb == MAX_NAME - i && (i > 253 ==> name[253] == DOT)
      invariant buffer[..HEADER_SIZE] == old(buffer[..HEADER_SIZE])
      invariant Partial(buffer[HEADER_SIZE..HEADER_SIZE + i], name, i)
      decreases |name| - i
    {
      ghost var before := buffer[..];
      ghost var head := before[HEADER_SIZE..HEADER_SIZE + i];
      var j, left;
      ok, j, left := WriteLabel(buffer, HEADER_SIZE + i, name, i, cb);
      Acceptance(name);
      if !ok {
        if Dot(name[i..]) > MAX_LABEL {
          LongLabel(head, name, i);
        }
        return;
      }
      Extended(before, buffer[..], HEADER_SIZE, HEADER_SIZE + i, HEADER_SIZE + j + 1);
      if j == |name| {
        assert name[i..j] == name[i..];
        LastLabel(head, name, i);
        ghost var written := buffer[..];
        buffer[HEADER_SIZE + j + 1] := 0;
        Extended(written, buffer[..], HEADER_SIZE, HEADER_SIZE + j + 1, HEADER_SIZE + j + 2);
        return;
      }
      NextLabel(head, name, i, j);
      NoWrap(j);
      i, cb := j + 1, left;
    }
  }

  /** Type and class behind the name. */
  method WriteWireQuestion(buffer: array<Byte>, pos: nat, kind: nat)
    requires kind < 0x1_0000 && pos + QUESTION_SIZE <= buffer.Length
    modifies buffer
    ensures buffer[..pos + QUESTION_SIZE] == old(buffer[..pos]) + [kind % 0x100, kind / 0x100, 0, 1]
  {
    buffer[pos], buffer[pos + 1], buffer[pos + 2], buffer[pos + 3] := kind % 0x100, kind / 0x100, 0, 1;
  }

  lemma HeaderFields(b: seq<Byte>, xid: nat, recursion: bool)
    requires xid < 0x1_0000 && HEADER_SIZE <= |b| && b[..HEADER_SIZE] == QuestionHeader(xid, recursion)
    ensures Raw16(b, 0) == xid && b[2] == (if recursion then 1 else 0) && b[3] == 0
    ensures Net16(b, 4) == 1 && forall i :: 6 <= i < 12 ==> b[i] == 0
  {
    assert forall i :: 0 <= i < HEADER_SIZE ==> b[i] == b[..HEADER_SIZE][i];
  }

  lemma TypeAndClass(b: seq<Byte>, pos: nat, kind: nat)
    requires kind < 0x1_0000 && pos + 4 <= |b| && b[pos..pos + 4] == [kind % 0x100, kind / 0x100, 0, 1]
    ensures Raw16(b, pos) == kind && Net16(b, pos + 2) == 1
  {
    var q := b[pos..pos + 4];
    assert b[pos] == q[0] && b[pos + 1] == q[1] && b[pos + 2] == q[2] && b[pos + 3] == q[3];
  }

  /** Where the fields of a written question lie. */
  lemma QuestionFields(b: seq<Byte>, h: seq<Byte>, e: seq<Byte>, q: seq<Byte>)
    requires |h| == HEADER_SIZE && |q| == 4 && |h| + |e| + |q| <= |b| && b[..|h| + |e| + |q|] == h + e + q
    ensures b[..HEADER_SIZE] == h && b[HEADER_SIZE..HEADER_SIZE + |e|] == e
    ensures b[HEADER_SIZE + |e|..HEADER_SIZE + |e| + 4] == q
  {
    var all := b[..|h| + |e| + |q|];
    assert b[..|h|] == all[..|h|] && b[|h|..|h| + |e|] == all[|h|..|h| + |e|];
    assert b[|h| + |e|..|h| + |e| + 4] == all[|h| + |e|..];
  }

  /** `DnsWriteQuestionToBuffer`: the size it checks against is that of an `int`, so the callers'
      512-byte buffer and 255-character limit are what keeps the writes inside. */
  method WriteQuestion(buffer: array<Byte>, size: nat, name: seq<Byte>, kind: nat, xid: nat, recursion: bool)
    returns (status: WriteStatus)
    requires kind < 0x1_0000 && xid < 0x1_0000 && 0 !in name
    requires |name| <= MAX_NAME && UDP_LENGTH <= buffer.Length
    modifies buffer
    ensures size < 4 ==> status == InsufficientBuffer && buffer[..] == old(buffer[..])
    ensures size >= 4 ==> status == if Accepted(name) then Written(HEADER_SIZE + |name| + 2 + QUESTION_SIZE)
            else InvalidName
    ensures status.Written? ==> LabelsShort(name) && status.size <= buffer.Length
    ensures status.Written? ==> buffer[..status.size] == Question(name, kind, xid, recursion)
    ensures status.Written? ==>
              && Raw16(buffer[..], 0) == xid && buffer[2] == (if recursion then 1 else 0) && buffer[3] == 0
              && Net16(buffer[..], 4) == 1 && forall i :: 6 <= i < 12 ==> buffer[i] == 0
    ensures status.Written? ==>
              && buffer[HEADER_SIZE..HEADER_SIZE + |name| + 2] == Encode(name)
              && Raw16(buffer[..], HEADER_SIZE + |name| + 2) == kind
              && Net16(buffer[..], HEADER_SIZE + |name| + 4) == 1
  {
    if size < 4 {
      return InsufficientBuffer;
    }
    hide Encode, LabelsShort, Accepted, QuestionHeader;
    var h := QuestionHeader(xid, recursion);
    forall i | 0 <= i < HEADER_SIZE {
      buffer[i] := h[i];
    }
    assert buffer[..HEADER_SIZE] == h;
    var ok := WriteName(buffer, name);
    if !ok {
      return InvalidName;
    }
    var pos := HEADER_SIZE + |name| + 2;
    assert buffer[..pos] == h + Encode(name);
    WriteWireQuestion(buffer, pos, kind);
    QuestionFields(buffer[..], h, Encode(name), [kind % 0x100, kind / 0x100, 0, 1]);
    HeaderFields(buffer[..], xid, recursion);
    TypeAndClass(buffer[..], pos, kind);
    status := Written(pos + QUESTION_SIZE);
  }

  // ---- Walking -----------------------------------------------------------------------

  /** `IsNameValid` at a position whose remaining length is the message's: the bytes left behind
      the name, and where it ends. The recursion into a pointer starts over at its target. */
  method IsNameValid(msg: array<Byte>, at: nat, length: nat, ghost depth: nat) returns (left: nat, next: nat)
    requires at + length == msg.Length && Left(msg[..], at, depth).Some?
    ensures left == Left(msg[..], at, depth).value
    ensures left > 0 ==> next + left == msg.Length && at < next
    decreases depth
  {
    var buf: nat, cb: nat := at, length;
    while cb != 0
      invariant buf + cb == msg.Length && at <= buf && Labels(msg[..], buf) == Labels(msg[..], at)
      decreases cb
    {
      var c: int := msg[buf];
      buf, cb := buf + 1, cb - 1;
      if c == 0 {
        break;
      }
      if c >= 0xc0 {
        if cb == 0 {
          return 0, at;
        }
        var ofs := (c * 0x100 + msg[buf]) % 0x400;
        buf, cb := buf + 1, cb - 1;
        if ofs >= msg.Length {
          return 0, at;
        }
        var there, _ := IsNameValid(msg, ofs, msg.Length - ofs, depth - 1);
        if there == 0 {
          return 0, at;
        }
        break;
      }
      if cb < c {
        return 0, at;
      }
      buf, cb := buf + c, cb - c;
    }
    left, next := cb, buf;
  }

  lemma WantedBytes(msg: seq<Byte>, p: nat, queryType: nat, n: nat)
    requires p + RECORD_SIZE + n <= |msg|
    ensures Wanted(queryType, Raw16(msg, p), msg[p + 10..p + 10 + n]) <==>
              || (queryType == 0x0100 && msg[p] == 0 && msg[p + 1] == 1 && n == 4
                  && msg[p + 10..p + 10 + n] != [0, 0, 0, 0])
              || (queryType == 0x1c00 && msg[p] == 0 && msg[p + 1] == 28 && n == 16)
  {
  }

  /** One record: either the walk ends with a result, or it goes on behind the record. */
  method Record(msg: array<Byte>, at: nat, length: nat, count: nat, queryType: nat, ghost depth: nat)
    returns (r: Option<Result>, next: nat, left: nat)
    requires at + length == msg.Length && count > 0
    requires Answers(msg[..], at, count, queryType, depth) != Diverges
    ensures r.Some? ==> r.value == Answers(msg[..], at, count, queryType, depth)
    // the record of ten bytes and n of data lies behind the name, at p
    ensures var cb := Left(msg[..], at, depth);
            && cb.Some?
            && (cb.value >= 10 ==>
                  var p := msg.Length - cb.value;
                  var n := Net16(msg[..], p + 8);
                  (cb.value - 10 >= n ==>
                     (r == Some(Found(msg[p + 10..p + 10 + n])) <==>
                        || (queryType == 0x0100 && msg[p] == 0 && msg[p + 1] == 1 && n == 4
                            && msg[p + 10..p + 10 + n] != [0, 0, 0, 0])
                        || (queryType == 0x1c00 && msg[p] == 0 && msg[p + 1] == 28 && n == 16))))
    ensures r.None? ==>
              && count > 1 && at < next && next + left == msg.Length
              && Answers(msg[..], next, count - 1, queryType, depth) == Answers(msg[..], at, count, queryType, depth)
  {
    hide Left, Raw16, Net16, Wanted;
    left, next := IsNameValid(msg, at, length, depth);
    if left < RECORD_SIZE {
      return Some(BadPacket), next, left;
    }
    var kind, n := Raw16(msg[..], next), Net16(msg[..], next + 8);
    next, left := next + RECORD_SIZE, left - RECORD_SIZE;
    if left < n {
      return Some(BadPacket), next, left;
    }
    var data := msg[..][next..next + n];
    WantedBytes(msg[..], next - RECORD_SIZE, queryType, n);
    if Wanted(queryType, kind, data) {
      return Some(Found(data)), next, left;
    }
    next, left := next + n, left - n;
    r := if left == 0 || count == 1 then Some(NoAddress) else None;
  }

  /** An address found has the length of its type. */
  lemma {:induction false} AddressFound(msg: seq<Byte>, at: nat, count: nat, queryType: nat, depth: nat)
    requires at <= |msg| && count > 0 && Answers(msg, at, count, queryType, depth).Found?
    ensures var a := Answers(msg, at, count, queryType, depth).address;
            || (queryType == 0x0100 && |a| == 4 && a != [0, 0, 0, 0])
            || (queryType == 0x1c00 && |a| == 16)
    decreases |msg| - at
  {
    hide Left, Raw16, Net16;
    var p := |msg| - Left(msg, at, depth).value;
    var n, body := Net16(msg, p + 8), p + RECORD_SIZE;
    if !Wanted(queryType, Raw16(msg, p), msg[body..body + n]) {
      AddressFound(msg, body + n, count - 1, queryType, depth);
    }
  }

  /** The results of `OnRecv` on the bytes of the header, and of an address. */
  lemma Responses(msg: seq<Byte>, xid: nat, queryType: nat, depth: nat)
    ensures var r := Response(msg, xid, queryType, depth);
            && (|msg| < 12 ==> r == ShortMessage)
            && (|msg| >= 12 && msg[3] % 0x10 != 0 ==> r == ServerError(msg[3] % 0x10))
            && (|msg| >= 12 && msg[3] % 0x10 == 0 ==>
                  if msg[0] != xid % 0x100 || msg[1] != xid / 0x100 then r == BadPacket
                  else msg[6] == 0 && msg[7] == 0 <==> r == NoAnswer)
            && (r.Found? ==>
                  || (queryType == 0x0100 && |r.address| == 4 && r.address != [0, 0, 0, 0])
                  || (queryType == 0x1c00 && |r.address| == 16))
  {
    hide Answers, Left;
    var r := Response(msg, xid, queryType, depth);
    if |msg| >= HEADER_SIZE && ResponseCode(msg) == 0 && Raw16(msg, 0) == xid && Net16(msg, 6) != 0 {
      var left := Left(msg, HEADER_SIZE, depth);
      if left.Some? && left.value >= QUESTION_SIZE {
        var at := |msg| - left.value + QUESTION_SIZE;
        AnswersNever(msg, at, Net16(msg, 6), queryType, depth);
        if r.Found? {
          AddressFound(msg, at, Net16(msg, 6), queryType, depth);
        }
      }
    }
  }

  /** The record loop ends with none of the results of the header. */
  lemma {:induction false} AnswersNever(msg: seq<Byte>, at: nat, count: nat, queryType: nat, depth: nat)
    requires at <= |msg| && count > 0
    ensures var r := Answers(msg, at, count, queryType, depth);
            r.Found? || r == NoAddress || r == BadPacket || r == Diverges
    decreases |msg| - at
  {
    hide Left, Raw16, Net16, Wanted;
    var left := Left(msg, at, depth);
    if left.Some? && left.value >= RECORD_SIZE {
      var body := |msg| - left.value + RECORD_SIZE;
      var n := Net16(msg, body - 2);
      if body + n < |msg| && count > 1 {
        AnswersNever(msg, body + n, count - 1, queryType, depth);
      }
    }
  }

  /** `OnRecv`: position and remaining length always add up to the message length, so every copy
      of a record header and of an address stays inside the message. */
  method OnRecv(msg: array<Byte>, xid: nat, queryType: nat, ghost depth: nat) returns (r: Result)
    requires Response(msg[..], xid, queryType, depth) != Diverges
    ensures r == Response(msg[..], xid, queryType, depth)
    ensures msg.Length < 12 ==> r == ShortMessage
    ensures msg.Length >= 12 && msg[3] % 0x10 != 0 ==> r == ServerError(msg[3] % 0x10)
    ensures msg.Length >= 12 && msg[3] % 0x10 == 0 && (msg[0] != xid % 0x100 || msg[1] != xid / 0x100) ==>
              r == BadPacket
    ensures msg.Length >= 12 && msg[3] % 0x10 == 0 && msg[0] == xid % 0x100 && msg[1] == xid / 0x100 ==>
              (msg[6] == 0 && msg[7] == 0 <==> r == NoAnswer)
    ensures r.Found? ==>
              || (queryType == 0x0100 && |r.address| == 4 && r.address != [0, 0, 0, 0])
              || (queryType == 0x1c00 && |r.address| == 16)
  {
    Responses(msg[..], xid, queryType, depth);
    if msg.Length < HEADER_SIZE {
      return ShortMessage;
    }
    var code := ResponseCode(msg[..]);
    if code != 0 {
      return ServerError(code);
    }
    if Raw16(msg[..], 0) != xid {
      return BadPacket;
    }
    var count := Net16(msg[..], 6);
    if count == 0 {
      return NoAnswer;
    }
    var length: nat, body: nat := IsNameValid(msg, HEADER_SIZE, msg.Length - HEADER_SIZE, depth);
    if length < QUESTION_SIZE {
      return BadPacket;
    }
    body, length := body + QUESTION_SIZE, length - QUESTION_SIZE;
    ghost var whole := Response(msg[..], xid, queryType, depth);
    assert Answers(msg[..], body, count, queryType, depth) == whole;
    hide *;
    var result := None;
    while result.None?
      invariant result.None? ==> body + length == msg.Length && count > 0
      invariant result.None? ==> Answers(msg[..], body, count, queryType, depth) == whole
      invariant result.Some? ==> result.value == whole
      decreases if result.None? then length + 1 else 0
    {
      var next, left;
      result, next, left := Record(msg, body, length, count, queryType, depth);
      body, length, count := next, left, if result.None? then count - 1 else 0;
    }
    r := result.value;
  }
}
