/** The hand-written protobuf codec of the client: fields written one after the other, and read
    by scanning for a field number. */
module Proto {
  import opened Prelude
  import opened Slices
  import opened Varint
  import opened Scanning

  // ---------- Fields on the wire ----------

  datatype Field =
    | Number(num: nat, value: UInt64)
    | Fixed64(num: nat, eight: Bytes)
    | Data(num: nat, data: Bytes)
    | Fixed32(num: nat, four: Bytes)

  const VARINT: nat := 0
  const FIXED64: nat := 1
  const DELIMITED: nat := 2
  const FIXED32: nat := 5

  function WireOf(f: Field): (w: nat)
    ensures w < 8
  {
    match f
    case Number(_, _) => VARINT
    case Fixed64(_, _) => FIXED64
    case Data(_, _) => DELIMITED
    case Fixed32(_, _) => FIXED32
  }

  /** `(field << 3) | wire`: the low three bits are free. */
  function Tag(num: nat, wire: nat): nat {
    num * 8 + wire
  }

  /** Field numbers fit 29 bits; lengths fit 31, which every frame of up to 16 MiB respects. */
  predicate WellFormed(f: Field) {
    && 1 <= f.num < 0x2000_0000
    && match f
       case Number(_, _) => true
       case Fixed64(_, b) => |b| == 8
       case Data(_, b) => |b| < 0x8000_0000
       case Fixed32(_, b) => |b| == 4
  }

  function PutData(data: Bytes): Bytes {
    Put(|data|) + data
  }

  function PutField(f: Field): Bytes {
    Put(Tag(f.num, WireOf(f))) + match f
      case Number(_, v) => Put(v)
      case Fixed64(_, b) => b
      case Data(_, b) => PutData(b)
      case Fixed32(_, b) => b
  }

  function Encode(fs: seq<Field>): Bytes {
    if fs == [] then [] else PutField(fs[0]) + Encode(fs[1..])
  }

  // ---------- The writer ----------

  method WriteBytes(stream: Bytes, num: nat, data: Bytes) returns (r: Bytes)
    requires num < 0x2000_0000 && |data| < 0x8000_0000
    ensures r == stream + PutField(Data(num, data))
  {
    hide Put;
    r := Varint.Write(stream, Tag(num, DELIMITED));
    r := Varint.Write(r, |data|);
    r := r + data;
  }

  /** Nothing is written for an empty string; an empty payload is written. */
  method WriteString(stream: Bytes, num: nat, text: Bytes) returns (r: Bytes)
    requires num < 0x2000_0000 && |text| < 0x8000_0000
    ensures r == stream + Encode(Text(num, text))
  {
    if text == [] {
      r := stream;
    } else {
      r := WriteBytes(stream, num, text);
    }
  }

  /** A string field, left out when empty. */
  function Text(num: nat, text: Bytes): seq<Field> {
    if text == [] then [] else [Data(num, text)]
  }

  function RequestFields(id: Bytes, name: Bytes, payload: Bytes, version: UInt64): seq<Field> {
    Text(1, id) + Text(2, name) + [Data(3, payload), Number(4, version)]
  }

  method BuildRequest(id: Bytes, name: Bytes, payload: Bytes, version: UInt64) returns (r: Bytes)
    requires |id| < 0x8000_0000 && |name| < 0x8000_0000 && |payload| < 0x8000_0000
    ensures r == Encode(RequestFields(id, name, payload, version))
  {
    hide PutField, Text, Put;
    r := WriteString([], 1, id);
    r := WriteString(r, 2, name);
    r := WriteBytes(r, 3, payload);
    r := Varint.Write(r, Tag(4, VARINT));
    r := Varint.Write(r, version);
    EncodeAppend(Text(1, id), Text(2, name));
    EncodeAppend(Text(1, id) + Text(2, name), [Data(3, payload), Number(4, version)]);
    NumberBytes(4, version);
    EncodeTwo(Data(3, payload), Number(4, version));
  }

  lemma NumberBytes(num: nat, value: UInt64)
    ensures PutField(Number(num, value)) == Put(Tag(num, VARINT)) + Put(value)
  {
  }

  lemma EncodeOne(f: Field)
    ensures Encode([f]) == PutField(f)
  {
    hide PutField;
    assert [f][1..] == [] && PutField(f) + [] == PutField(f);
  }

  lemma EncodeTwo(f: Field, g: Field)
    ensures Encode([f, g]) == PutField(f) + PutField(g)
  {
    hide PutField;
    assert [f, g] == [f] + [g];
    EncodeAppend([f], [g]);
    EncodeOne(f);
    EncodeOne(g);
  }

  lemma {:induction false} EncodeAppend(a: seq<Field>, b: seq<Field>)
    ensures Encode(a + b) == Encode(a) + Encode(b)
  {
    hide PutField;
    if a == [] {
      assert a + b == b;
    } else {
      assert (a + b)[1..] == a[1..] + b;
      EncodeAppend(a[1..], b);
    }
  }

  // ---------- The reader ----------

  /** `(int)x`: the low 32 bits as a signed number. */
  function AsInt(x: nat): int {
    var low := x % 0x1_0000_0000;
    if low < 0x8000_0000 then low else low - 0x1_0000_0000
  }

  /** What the scan does at one position. */
  datatype Seen = End | Bad | At(num: int, wire: nat, pos: nat)

  /** A tag, unless the buffer is used up or the number is not positive, which end the scan. */
  function ReadField(buf: Bytes, pos: nat): (s: Seen)
    ensures s.At? ==> pos < s.pos <= |buf|
  {
    if pos >= |buf| then End
    else match Value(buf, pos)
      case None => Bad
      case Some((tag, next)) => if AsInt(tag / 8) > 0 then At(AsInt(tag / 8), tag % 8, next) else End
  }

  /** Past a value of this wire type, or before it: a length with bit 31 set counts as negative and moves the
      cursor back. `None` stands for an exception, now or at the next byte that is read, when the cursor overflows
      31 bits or falls below 0. */
  function Skip(buf: Bytes, pos: nat, wire: nat): Option<nat> {
    if wire == VARINT then
      match Value(buf, pos) { case None => None case Some((_, next)) => Some(next) }
    else if wire == FIXED64 then Some(pos + 8)
    else if wire == DELIMITED then
      match Value(buf, pos) { case None => None case Some((len, next)) => Moved(next, AsInt(len)) }
    else if wire == FIXED32 then Some(pos + 4)
    else Some(|buf|)
  }

  /** The cursor is a signed 32-bit integer. */
  lemma MovedMeans(pos: nat, len: int)
    ensures Moved(pos, len) == None <==> pos + len < 0 || pos + len > 2147483647
    ensures Moved(pos, len).Some? ==> Moved(pos, len).value == pos + len
  {
  }

  function Moved(pos: nat, len: int): Option<nat> {
    if 0 <= pos + len < 0x8000_0000 then Some(pos + len) else None
  }

  /** One round of the scan for a field with this number and wire type, which ends after the tag of the first. */
  function FindRound(buf: Bytes, pos: nat, target: int, wire: nat): Round<Option<nat>> {
    match ReadField(buf, pos)
    case End => Stop(Done(None))
    case Bad => Stop(Threw)
    case At(num, w, next) =>
      if num == target && w == wire then Stop(Done(Some(next)))
      else match Skip(buf, next, w)
        case None => Stop(Threw)
        case Some(after) => Go(after)
  }

  function Finder(buf: Bytes, target: int, wire: nat): nat -> Round<Option<nat>> {
    (pos: nat) => FindRound(buf, pos, target, wire)
  }

  function Find(buf: Bytes, pos: nat, target: int, wire: nat): Outcome<Option<nat>> {
    Scan(Finder(buf, target, wire), |buf|, pos)
  }

  lemma FinderIsBounded(buf: Bytes, target: int, wire: nat)
    ensures Bounded(Finder(buf, target, wire), |buf|)
  {
    hide Skip, Value;
  }

  /** The scan for a field ends exactly when no length leads its cursor back to where it has been. */
  lemma FindEndsExactly(buf: Bytes, target: int, wire: nat)
    ensures Find(buf, 0, target, wire) == Loops <==> ComesBack(Finder(buf, target, wire), 0)
  {
    FinderIsBounded(buf, target, wire);
    EndsInTime(Finder(buf, target, wire), |buf|, 0);
  }

  lemma FindStep(buf: Bytes, pos: nat, target: int, wire: nat)
    ensures Find(buf, pos, target, wire) ==
            match FindRound(buf, pos, target, wire) case Stop(r) => r case Go(after) => Find(buf, after, target, wire)
  {
    FinderIsBounded(buf, target, wire);
    ScanRound(Finder(buf, target, wire), |buf|, pos);
    hide FindRound, Scan;
  }

  /** The bytes at a position; `None` for an exception. */
  function DataAt(buf: Bytes, pos: nat): Option<Bytes> {
    match Value(buf, pos)
    case None => None
    case Some((len, next)) =>
      if AsInt(len) < 0 || next + AsInt(len) > |buf| then None else Some(buf[next..next + AsInt(len)])
  }

  /** `ReadBytesField`: nothing when there is no such field. */
  function BytesField(buf: Bytes, target: int): Outcome<Option<Bytes>> {
    match Find(buf, 0, target, DELIMITED)
    case Threw => Threw
    case Loops => Loops
    case Done(None) => Done(None)
    case Done(Some(pos)) => match DataAt(buf, pos) { case None => Threw case Some(b) => Done(Some(b)) }
  }

  /** `ReadUInt64Field`, of which the 64- and 32-bit signed readers are casts: 0 when absent. */
  function NumberField(buf: Bytes, target: int): Outcome<nat> {
    match Find(buf, 0, target, VARINT)
    case Threw => Threw
    case Loops => Loops
    case Done(None) => Done(0)
    case Done(Some(pos)) => match Value(buf, pos) { case None => Threw case Some((v, _)) => Done(v) }
  }

  class ProtoReader {
    const buf: Bytes
    var pos: nat

    constructor (buf: Bytes)
      ensures this.buf == buf && pos == 0
    {
      this.buf, pos := buf, 0;
    }

    /** The scan shared by all field readers, from the start of the buffer, wherever it ends: `FindEndsExactly`
        says when it does. */
    method Seek(target: int, wire: nat) returns (r: Option<bool>)
      requires Find(buf, 0, target, wire) != Loops
      modifies this`pos
      ensures match Find(buf, 0, target, wire)
              case Threw => r == None
              case Done(None) => r == Some(false)
              case Done(Some(at)) => r == Some(true) && pos == at
    {
      hide ReadField, Skip;
      ghost var left: nat := |buf| + 1;
      pos := 0;
      while true
        invariant After(Finder(buf, target, wire), pos, left) == After(Finder(buf, target, wire), 0, |buf| + 1)
        decreases left
      {
        assert left > 0;
        left := left - 1;
        match ReadField(buf, pos) {
          case End => return Some(false);
          case Bad => return None;
          case At(num, w, next) =>
            pos := next;
            if num == target && w == wire {
              return Some(true);
            }
            var after := Skip(buf, pos, w);
            if after.None? {
              return None;
            }
            pos := after.value;
        }
      }
    }

    method ReadBytesField(target: int) returns (r: Outcome<Option<Bytes>>)
      requires BytesField(buf, target) != Loops
      modifies this`pos
      ensures r == BytesField(buf, target)
    {
      hide Find;
      var found := Seek(target, DELIMITED);
      if found.None? {
        return Threw;
      }
      if !found.value {
        return Done(None);
      }
      var len := Varint.Read(buf, pos, 64);
      if len.None? || AsInt(len.value.0) < 0 || len.value.1 + AsInt(len.value.0) > |buf| {
        return Threw;
      }
      pos := len.value.1 + AsInt(len.value.0);
      r := Done(Some(buf[len.value.1..pos]));
    }

    method ReadUInt64Field(target: int) returns (r: Outcome<nat>)
      requires NumberField(buf, target) != Loops
      modifies this`pos
      ensures r == NumberField(buf, target)
    {
      hide Find;
      var found := Seek(target, VARINT);
      if found.None? {
        return Threw;
      }
      if !found.value {
        return Done(0);
      }
      var v := Varint.Read(buf, pos, 64);
      if v.None? {
        return Threw;
      }
      pos := v.value.1;
      r := Done(v.value.0);
    }
  }
}
