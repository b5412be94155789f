/** DNS messages (RFC 1035): the question writer, the name walker and the answer walk. */
module DnsSpec {
  import opened Words

  const HEADER_SIZE: nat := 12
  const QUESTION_SIZE: nat := 4
  const RECORD_SIZE: nat := 10
  const MAX_LABEL: nat := 63
  const MAX_NAME: nat := 255
  const UDP_LENGTH: nat := 512
  const DOT: nat := 0x2e

  /** Record types as the raw 16-bit field reads on a little-endian machine. */
  const RTYPE_A: nat := 0x0100
  const RTYPE_AAAA: nat := 0x1c00

  // ---- Writing a name ----------------------------------------------------------------

  /** Length of the first label. */
  function Dot(name: seq<Byte>): (d: nat)
    ensures d <= |name|
  {
    if name == [] || name[0] == DOT then 0 else 1 + Dot(name[1..])
  }

  predicate LabelsShort(name: seq<Byte>)
    decreases |name|
  {
    var d := Dot(name);
    d <= MAX_LABEL && (d < |name| ==> LabelsShort(name[d + 1..]))
  }

  predicate NoEmptyLabel(name: seq<Byte>)
    decreases |name|
  {
    var d := Dot(name);
    d > 0 && (d < |name| ==> NoEmptyLabel(name[d + 1..]))
  }

  /** The wire form: each label behind its length, then a zero byte. */
  function Encode(name: seq<Byte>): (b: seq<Byte>)
    requires LabelsShort(name)
    ensures |b| == |name| + 2
    decreases |name|
  {
    var d := Dot(name);
    [d] + name[..d] + if d < |name| then Encode(name[d + 1..]) else [0]
  }

  /** The length budget is only checked at characters, not where a label starts. */
  predicate Accepted(name: seq<Byte>) {
    LabelsShort(name) && (|name| <= 253 || name[253] == DOT)
  }

  // ---- Walking a name ----------------------------------------------------------------

  /** How the labels from a position end. */
  datatype End = Terminated(next: nat) | Exhausted | Malformed | Pointer(next: nat, target: nat)

  function Labels(msg: seq<Byte>, at: nat): (e: End)
    requires at <= |msg|
    ensures e.Terminated? || e.Pointer? ==> at < e.next <= |msg|
    decreases |msg| - at
  {
    if at == |msg| then Exhausted
    else
      var c: int := msg[at];
      if c == 0 then Terminated(at + 1)
      else if c >= 0xc0 then
        if at + 1 == |msg| then Malformed else Pointer(at + 2, (c * 0x100 + msg[at + 1]) % 0x400)
      else if |msg| - (at + 1) < c then Malformed
      else Labels(msg, at + 1 + c)
  }

  /** The name at the masked target of the pointer that ends the name at s, if it has one. */
  function Next(msg: seq<Byte>, s: nat): (t: Option<nat>)
    requires s <= |msg|
    ensures t.Some? ==> s < |msg| && t.value < |msg|
  {
    var e := Labels(msg, s);
    if e.Pointer? && e.target < |msg| then Some(e.target) else None
  }

  /** `IsNameValid` with recursion depth at most n: the bytes left behind the name, 0 if it is
      invalid or nothing is left; nothing if the depth does not suffice. */
  function Left(msg: seq<Byte>, s: nat, n: nat): (r: Option<nat>)
    requires s <= |msg|
    ensures r.Some? ==> r.value == 0 || r.value < |msg| - s
    decreases n
  {
    var e := Labels(msg, s);
    match e
    case Exhausted => Some(0)
    case Malformed => Some(0)
    case Terminated(next) => Some(|msg| - next)
    case Pointer(next, target) =>
      if target >= |msg| then Some(0)
      else if n == 0 then None
      else
        var r := Left(msg, target, n - 1);
        if r.None? then None else Some(if r.value == 0 then 0 else |msg| - next)
  }

  /** The recursion of `IsNameValid` ends. */
  ghost predicate Terminates(msg: seq<Byte>, s: nat)
    requires s <= |msg|
  {
    exists n: nat :: Left(msg, s, n).Some?
  }

  // ---- Walking the answers -----------------------------------------------------------

  function Raw16(msg: seq<Byte>, at: nat): nat
    requires at + 2 <= |msg|
  {
    var low: int, high: int := msg[at], msg[at + 1];
    low + 0x100 * high
  }

  function Net16(msg: seq<Byte>, at: nat): nat
    requires at + 2 <= |msg|
  {
    var high: int, low: int := msg[at], msg[at + 1];
    0x100 * high + low
  }

  datatype Result =
    | Found(address: seq<Byte>) | NoAddress | BadPacket | ShortMessage | ServerError(code: nat) | NoAnswer | Diverges

  /** Whether a record is the address asked for. */
  predicate Wanted(queryType: nat, recordType: nat, data: seq<Byte>) {
    && queryType == recordType
    && (recordType == RTYPE_A ==> |data| == 4 && data != [0, 0, 0, 0])
    && (recordType == RTYPE_AAAA ==> |data| == 16)
    && recordType in {RTYPE_A, RTYPE_AAAA}
  }

  /** The record loop at a position: `count` answers are announced. */
  function Answers(msg: seq<Byte>, at: nat, count: nat, queryType: nat, depth: nat): Result
    requires at <= |msg| && count > 0
    decreases |msg| - at
  {
    var left := Left(msg, at, depth);
    if left.None? then Diverges
    else if left.value < RECORD_SIZE then BadPacket
    else
      var p := |msg| - left.value;
      var kind, n, body := Raw16(msg, p), Net16(msg, p + 8), p + RECORD_SIZE;
      if |msg| - body < n then BadPacket
      else if Wanted(queryType, kind, msg[body..body + n]) then Found(msg[body..body + n])
      else if body + n == |msg| || count == 1 then NoAddress
      else Answers(msg, body + n, count - 1, queryType, depth)
  }

  /** The low four bits of the second flag byte. */
  function ResponseCode(msg: seq<Byte>): nat
    requires |msg| >= HEADER_SIZE
  {
    msg[3] % 0x10
  }

  /** `OnRecv` of a message. */
  function Response(msg: seq<Byte>, xid: nat, queryType: nat, depth: nat): Result {
    if |msg| < HEADER_SIZE then ShortMessage
    else if ResponseCode(msg) != 0 then ServerError(ResponseCode(msg))
    else if Raw16(msg, 0) != xid then BadPacket
    else if Net16(msg, 6) == 0 then NoAnswer
    else
      var left := Left(msg, HEADER_SIZE, depth);
      if left.None? then Diverges
      else if left.value < QUESTION_SIZE then BadPacket
      else Answers(msg, |msg| - left.value + QUESTION_SIZE, Net16(msg, 6), queryType, depth)
  }
}
