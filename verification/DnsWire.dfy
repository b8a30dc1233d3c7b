/** The DNS wire format of section 4.1 of RFC 1035, as far as the service speaks it:
    building a question, following compressed names, and reading answers. */
module DnsWire {
  import opened Prelude
  import opened Text
  import opened Address

  type Byte = Octet

  type Label = seq<Byte>

  const DOT: Byte := 46
  const TYPE_A: nat := 1
  const TYPE_AAAA: nat := 28
  const MAX_HOPS: nat := 16

  datatype Record = Record(name: seq<Label>, qtype: nat, ttl: nat, ip: Option<Ip>)

  function U16(n: nat): (b: seq<Byte>)
    ensures |b| == 2
  {
    [n / 256 % 256, n % 256]
  }

  function U32(n: nat): (b: seq<Byte>)
    ensures |b| == 4
  {
    U16(n / 65536) + U16(n % 65536)
  }

  function ReadU16(buf: seq<Byte>, at: nat): (n: nat)
    requires at + 2 <= |buf|
    ensures n < 65536
  {
    buf[at] as int * 256 + buf[at + 1] as int
  }

  function ReadU32(buf: seq<Byte>, at: nat): nat
    requires at + 4 <= |buf|
  {
    ReadU16(buf, at) * 65536 + ReadU16(buf, at + 2)
  }

  // ---------- Writing a question ----------

  /** `label.len() as u8` keeps the low eight bits of the length. */
  function PutLabel(part: Label): seq<Byte> {
    [|part| % 256] + part
  }

  function PutLabels(labels: seq<Label>): seq<Byte> {
    if labels == [] then [] else PutLabels(labels[..|labels| - 1]) + PutLabel(labels[|labels| - 1])
  }

  function QueryHeader(id: nat): (h: seq<Byte>)
    ensures |h| == 12
  {
    U16(id) + U16(0x0100) + U16(1) + U16(0) + U16(0) + U16(0)
  }

  /** The labels of a dotted name; empty ones are dropped. */
  function NameLabels(name: seq<Byte>): seq<Label> {
    NonEmpty(Split(name, DOT))
  }

  /** A question of class IN on the wire. */
  function Query(name: seq<Byte>, qtype: nat, id: nat): seq<Byte> {
    QueryHeader(id) + PutLabels(NameLabels(name)) + [0] + U16(qtype) + U16(1)
  }

  method BuildQuery(name: seq<Byte>, qtype: nat, id: nat) returns (buf: seq<Byte>)
    ensures buf == Query(name, qtype, id)
  {
    buf := QueryHeader(id);
    var labels := NameLabels(name);
    for i := 0 to |labels|
      invariant buf == QueryHeader(id) + PutLabels(labels[..i])
    {
      assert labels[..i + 1][..i] == labels[..i];
      buf := buf + [|labels[i]| % 256];
      buf := buf + labels[i];
    }
    assert labels[..|labels|] == labels;
    buf := buf + [0] + U16(qtype) + U16(1);
  }

  // ---------- Reading a name ----------

  /** Both high bits set: a compression pointer. The code treats every other non-zero byte as a length. */
  predicate IsPointer(b: Byte) {
    b >= 0xC0
  }

  function Target(buf: seq<Byte>, at: nat): nat
    requires at + 1 < |buf| && IsPointer(buf[at])
  {
    (buf[at] as int - 0xC0) * 256 + buf[at + 1] as int
  }

  /** What the name at an offset stands for, in the sense of section 4.1.4, when exactly
      `jumps` pointers are followed; no limit, and no order of reading. */
  ghost predicate Denotes(buf: seq<Byte>, at: nat, labels: seq<Label>, jumps: nat)
    decreases jumps, |labels|
  {
    at < |buf| &&
    if buf[at] == 0 then labels == [] && jumps == 0
    else if IsPointer(buf[at]) then
      jumps > 0 && at + 1 < |buf| && Denotes(buf, Target(buf, at), labels, jumps - 1)
    else
      var end := at + 1 + buf[at];
      labels != [] && end <= |buf| && labels[0] == buf[at + 1..end] && Denotes(buf, end, labels[1..], jumps)
  }

  /** The recursive reading that gives up at the seventeenth pointer. */
  function Expand(buf: seq<Byte>, at: nat, hops: nat): Option<seq<Label>>
    requires hops <= MAX_HOPS
    decreases MAX_HOPS - hops, |buf| - at
  {
    if at >= |buf| then None
    else if buf[at] == 0 then Some([])
    else if IsPointer(buf[at]) then
      if at + 1 >= |buf| || hops == MAX_HOPS then None else Expand(buf, Target(buf, at), hops + 1)
    else
      var end := at + 1 + buf[at];
      if end > |buf| then None
      else match Expand(buf, end, hops)
        case None => None
        case Some(rest) => Some([buf[at + 1..end]] + rest)
  }

  /** Where the name's own bytes end: after its zero byte or its first pointer. */
  function NextAfter(buf: seq<Byte>, at: nat): Option<nat>
    decreases |buf| - at
  {
    if at >= |buf| then None
    else if buf[at] == 0 then Some(at + 1)
    else if IsPointer(buf[at]) then if at + 1 >= |buf| then None else Some(at + 2)
    else if at + 1 + buf[at] > |buf| then None
    else NextAfter(buf, at + 1 + buf[at])
  }

  lemma {:induction false} NextIsInside(buf: seq<Byte>, at: nat, hops: nat)
    requires hops <= MAX_HOPS
    ensures NextAfter(buf, at).Some? ==> at < NextAfter(buf, at).value <= |buf|
    ensures Expand(buf, at, hops).Some? ==> NextAfter(buf, at).Some?
    decreases |buf| - at
  {
    if at < |buf| && buf[at] != 0 && !IsPointer(buf[at]) && at + 1 + buf[at] <= |buf| {
      NextIsInside(buf, at + 1 + buf[at], hops);
    }
  }

  function ReadNameSpec(buf: seq<Byte>, at: nat): (r: Option<(seq<Label>, nat)>)
    ensures r.Some? ==> at < r.value.1 <= |buf|
  {
    NextIsInside(buf, at, 0);
    match Expand(buf, at, 0)
    case None => None
    case Some(labels) => Some((labels, NextAfter(buf, at).value))
  }

  /** Follows a possibly compressed name; terminates on every buffer, each jump using up a hop. */
  method ReadName(buf: seq<Byte>, start: nat) returns (r: Option<(seq<Label>, nat)>)
    ensures r == ReadNameSpec(buf, start)
  {
    NextIsInside(buf, start, 0);
    var labels: seq<Label> := [];
    var offset: nat, jumped, nextAfter: nat, hops := start, false, start, 0;
    while true
      invariant hops <= MAX_HOPS
      invariant Expand(buf, start, 0).Some? <==> Expand(buf, offset, hops).Some?
      invariant Expand(buf, start, 0).Some? ==>
                  Expand(buf, start, 0).value == labels + Expand(buf, offset, hops).value
      invariant if jumped then NextAfter(buf, start) == Some(nextAfter)
                else nextAfter == offset && NextAfter(buf, start) == NextAfter(buf, offset)
      decreases MAX_HOPS - hops, |buf| - offset
    {
      if offset >= |buf| {
        return None;
      }
      var len := buf[offset];
      if len == 0 {
        assert labels + Expand(buf, offset, hops).value == labels;
        offset := offset + 1;
        if !jumped {
          nextAfter := offset;
        }
        break;
      }
      if IsPointer(len) {
        if offset + 1 >= |buf| {
          return None;
        }
        var ptr := Target(buf, offset);
        if !jumped {
          nextAfter := offset + 2;
        }
        offset := ptr;
        jumped := true;
        hops := hops + 1;
        if hops > MAX_HOPS {
          return None;
        }
        continue;
      }
      offset := offset + 1;
      var end: nat := offset + len as int;
      if end > |buf| {
        return None;
      }
      labels := labels + [buf[offset..end]];
      offset := end;
      if !jumped {
        nextAfter := offset;
      }
    }
    r := Some((labels, nextAfter));
  }

  // ---------- Reading a response ----------

  /** Past `count` questions, each a name, a type and a class. */
  function SkipQuestions(buf: seq<Byte>, at: nat, count: nat): Option<nat>
    decreases count
  {
    if count == 0 then Some(at)
    else match ReadNameSpec(buf, at)
      case None => None
      case Some((_, next)) => SkipQuestions(buf, next + 4, count - 1)
  }

  /** An address is read only from a record of the right type and length. */
  function RecordIp(qtype: nat, rdata: seq<Byte>): Option<Ip> {
    if qtype == TYPE_A && |rdata| == 4 then Some(V4(rdata))
    else if qtype == TYPE_AAAA && |rdata| == 16 then Some(V6(rdata))
    else None
  }

  datatype Item = BadName | CutShort | Item(record: Record, next: nat)

  /** One resource record: a name, ten fixed octets and as many octets of data as they announce. */
  function ReadItem(buf: seq<Byte>, at: nat): Item {
    match ReadNameSpec(buf, at)
    case None => BadName
    case Some((name, next)) =>
      if next + 10 > |buf| then CutShort
      else
        var start, size := next + 10, ReadU16(buf, next + 8);
        if start + size > |buf| then CutShort
        else
          var qtype := ReadU16(buf, next);
          Item.Item(Record(name, qtype, ReadU32(buf, next + 4), RecordIp(qtype, buf[start..start + size])), start + size)
  }

  /** Up to `count` records: a name that cannot be read fails the whole response, a record cut short
      ends the list. */
  function ReadRecords(buf: seq<Byte>, at: nat, count: nat): Option<seq<Record>>
    decreases count
  {
    if count == 0 then Some([])
    else match ReadItem(buf, at)
      case BadName => None
      case CutShort => Some([])
      case Item(record, next) =>
        match ReadRecords(buf, next, count - 1)
        case None => None
        case Some(rest) => Some([record] + rest)
  }

  function ResponseSpec(buf: seq<Byte>): Option<seq<Record>> {
    if |buf| < 12 || buf[2] < 0x80 then None
    else match SkipQuestions(buf, 12, ReadU16(buf, 4))
      case None => None
      case Some(at) => ReadRecords(buf, at, ReadU16(buf, 6))
  }

  method ParseResponse(buf: seq<Byte>) returns (r: Option<seq<Record>>)
    ensures r == ResponseSpec(buf)
  {
    hide Expand, NextAfter;
    if |buf| < 12 {
      return None;
    }
    if buf[2] < 0x80 {
      return None;
    }
    var qd, an := ReadU16(buf, 4), ReadU16(buf, 6);
    var offset: nat := 12;
    for i := 0 to qd
      invariant SkipQuestions(buf, 12, qd) == SkipQuestions(buf, offset, qd - i)
    {
      var name := ReadName(buf, offset);
      if name.None? {
        return None;
      }
      offset := name.value.1 + 4;
    }
    r := ParseRecords(buf, offset, an);
  }

  /** The answer loop of `ParseResponse`. */
  method ParseRecords(buf: seq<Byte>, start: nat, an: nat) returns (r: Option<seq<Record>>)
    ensures r == ReadRecords(buf, start, an)
  {
    hide Expand, NextAfter, ReadNameSpec, RecordIp, ReadU16, ReadU32;
    var offset: nat := start;
    var records: seq<Record> := [];
    for i := 0 to an
      invariant Extends(ReadRecords(buf, start, an), records, ReadRecords(buf, offset, an - i))
    {
      assert records + [] == records;
      var name := ReadName(buf, offset);
      if name.None? {
        return None;
      }
      offset := name.value.1;
      if offset + 10 > |buf| {
        return Some(records);
      }
      var qtype, ttl, rdlen := ReadU16(buf, offset), ReadU32(buf, offset + 4), ReadU16(buf, offset + 8);
      offset := offset + 10;
      if offset + rdlen > |buf| {
        return Some(records);
      }
      var rdata := buf[offset..offset + rdlen];
      records := records + [Record(name.value.0, qtype, ttl, RecordIp(qtype, rdata))];
      offset := offset + rdlen;
    }
    r := Some(records);
  }

  /** `whole` is `done` followed by `rest`, when the rest can be read. */
  ghost predicate Extends(whole: Option<seq<Record>>, done: seq<Record>, rest: Option<seq<Record>>) {
    (whole.Some? <==> rest.Some?) && (rest.Some? ==> whole.value == done + rest.value)
  }
}
