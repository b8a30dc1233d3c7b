/** The reader finds what the writer wrote: the first field with a number and a wire type, past any others. */
module ProtoRoundTrip {
  import opened Prelude
  import opened Slices
  import opened Address
  import opened Varint
  import opened Scanning
  import opened Proto

  /** The first field with this number and wire type. */
  function First(fs: seq<Field>, target: nat, wire: nat): Option<Field> {
    if fs == [] then None
    else if fs[0].num == target && WireOf(fs[0]) == wire then Some(fs[0])
    else First(fs[1..], target, wire)
  }

  predicate AllWellFormed(fs: seq<Field>) {
    forall i | 0 <= i < |fs| :: WellFormed(fs[i])
  }

  lemma TailIsWellFormed(fs: seq<Field>)
    requires AllWellFormed(fs) && fs != []
    ensures WellFormed(fs[0]) && AllWellFormed(fs[1..])
  {
    hide WellFormed;
  }

  /** The bytes after a field's tag. */
  function Contents(f: Field): Bytes {
    match f
    case Number(_, v) => Put(v)
    case Fixed64(_, b) => b
    case Data(_, b) => PutData(b)
    case Fixed32(_, b) => b
  }

  lemma TagReads(buf: Bytes, pos: nat, f: Field)
    requires WellFormed(f) && Has(buf, pos, Put(Tag(f.num, WireOf(f))))
    ensures ReadField(buf, pos) == At(f.num, WireOf(f), pos + |Put(Tag(f.num, WireOf(f)))|)
    ensures Value(buf, pos) == Some((Tag(f.num, WireOf(f)), pos + |Put(Tag(f.num, WireOf(f)))|))
    ensures AsInt(Tag(f.num, WireOf(f)) / 8) == f.num && Tag(f.num, WireOf(f)) % 8 == WireOf(f)
  {
    hide Put, Value;
    RoundTrip(buf, pos, Tag(f.num, WireOf(f)));
    var tag := Tag(f.num, WireOf(f));
    assert tag / 8 == f.num && tag % 8 == WireOf(f);
    assert Has(buf, pos, Put(tag)) && |Put(tag)| > 0;
  }

  lemma ContentsAreSkipped(buf: Bytes, pos: nat, f: Field)
    requires |buf| < 0x8000_0000 && WellFormed(f) && Has(buf, pos, Contents(f))
    ensures Skip(buf, pos, WireOf(f)) == Some(pos + |Contents(f)|)
  {
    hide Put, Value;
    match f
    case Number(_, v) => RoundTrip(buf, pos, v);
    case Fixed64(_, b) =>
    case Data(_, b) =>
      HasParts(buf, pos, Put(|b|), b);
      RoundTrip(buf, pos, |b|);
    case Fixed32(_, b) =>
  }

  lemma DataReads(buf: Bytes, pos: nat, b: Bytes)
    requires |b| < 0x8000_0000 && Has(buf, pos, PutData(b))
    ensures DataAt(buf, pos) == Some(b)
  {
    hide Put, Value;
    HasParts(buf, pos, Put(|b|), b);
    RoundTrip(buf, pos, |b|);
  }

  /** The scan from `pos` arrives at the contents of the first matching field, or at the end. */
  ghost predicate Arrives(buf: Bytes, pos: nat, fs: seq<Field>, target: nat, wire: nat) {
    match First(fs, target, wire)
    case None => Find(buf, pos, target, wire) == Done(None)
    case Some(f) =>
      && Find(buf, pos, target, wire).Done? && Find(buf, pos, target, wire).value.Some?
      && Has(buf, Find(buf, pos, target, wire).value.value, Contents(f))
  }

  /** The first field, as the scan sees it. */
  lemma FieldStands(buf: Bytes, pos: nat, fs: seq<Field>) returns (next: nat, after: nat)
    requires |buf| < 0x8000_0000 && AllWellFormed(fs) && fs != []
    requires Has(buf, pos, Encode(fs)) && pos + |Encode(fs)| == |buf|
    ensures ReadField(buf, pos) == At(fs[0].num, WireOf(fs[0]), next) && Has(buf, next, Contents(fs[0]))
    ensures Value(buf, pos) == Some((Tag(fs[0].num, WireOf(fs[0])), next))
    ensures AsInt(Tag(fs[0].num, WireOf(fs[0])) / 8) == fs[0].num && Tag(fs[0].num, WireOf(fs[0])) % 8 == WireOf(fs[0])
    ensures Skip(buf, next, WireOf(fs[0])) == Some(after) && after == next + |Contents(fs[0])|
    ensures Has(buf, after, Encode(fs[1..])) && after + |Encode(fs[1..])| == |buf|
  {
    hide ReadField, Skip, WellFormed, Put, Has, Encode, Contents, Tag, Value, AsInt;
    var f := fs[0];
    var tag := Put(Tag(f.num, WireOf(f)));
    next := pos + |tag|;
    after := next + |Contents(f)|;
    EncodeFirst(fs);
    HasParts(buf, pos, tag + Contents(f), Encode(fs[1..]));
    HasParts(buf, pos, tag, Contents(f));
    TagReads(buf, pos, f);
    ContentsAreSkipped(buf, next, f);
  }

  lemma {:induction false} FindOfEncode(buf: Bytes, pos: nat, fs: seq<Field>, target: nat, wire: nat)
    requires |buf| < 0x8000_0000 && AllWellFormed(fs)
    requires Has(buf, pos, Encode(fs)) && pos + |Encode(fs)| == |buf|
    ensures Arrives(buf, pos, fs, target, wire)
    decreases |fs|
  {
    hide ReadField, Skip, WellFormed, Has, Encode, Contents, Tag, AsInt, AllWellFormed, Put, Find;
    FindStep(buf, pos, target, wire);
    if fs == [] {
      NothingToFind(buf, pos, fs, target, wire);
    } else {
      TailIsWellFormed(fs);
      var next, after := FieldStands(buf, pos, fs);
      FindOfEncode(buf, after, fs[1..], target, wire);
    }
  }

  lemma NothingToFind(buf: Bytes, pos: nat, fs: seq<Field>, target: nat, wire: nat)
    requires fs == [] && pos + |Encode(fs)| == |buf|
    ensures Arrives(buf, pos, fs, target, wire)
  {
    hide Put, Value, Find;
    FindStep(buf, pos, target, wire);
  }

  lemma EncodeFirst(fs: seq<Field>)
    requires fs != []
    ensures Encode(fs) == (Put(Tag(fs[0].num, WireOf(fs[0]))) + Contents(fs[0])) + Encode(fs[1..])
  {
  }

  /** Every field is recovered past whatever fields stand before it. */
  lemma BytesRecovered(fs: seq<Field>, target: nat)
    requires AllWellFormed(fs) && |Encode(fs)| < 0x8000_0000
    ensures BytesField(Encode(fs), target)
         == Done(match First(fs, target, DELIMITED) case None => None case Some(f) => Some(DataOf(f)))
  {
    hide Find, Encode, WellFormed, DataAt;
    var buf := Encode(fs);
    HasWhole(buf);
    FindOfEncode(buf, 0, fs, target, DELIMITED);
    FirstIsThere(fs, target, DELIMITED);
    if First(fs, target, DELIMITED).Some? {
      DataReads(buf, Find(buf, 0, target, DELIMITED).value.value, First(fs, target, DELIMITED).value.data);
    }
  }

  function DataOf(f: Field): Bytes {
    if f.Data? then f.data else []
  }

  function NumberOf(f: Field): nat {
    if f.Number? then f.value else 0
  }

  lemma NumberRecovered(fs: seq<Field>, target: nat)
    requires AllWellFormed(fs) && |Encode(fs)| < 0x8000_0000
    ensures NumberField(Encode(fs), target)
         == Done(match First(fs, target, VARINT) case None => 0 case Some(f) => NumberOf(f))
  {
    hide Find, Encode, WellFormed, Put, Value;
    var buf := Encode(fs);
    HasWhole(buf);
    FindOfEncode(buf, 0, fs, target, VARINT);
    FirstIsThere(fs, target, VARINT);
    if First(fs, target, VARINT).Some? {
      RoundTrip(buf, Find(buf, 0, target, VARINT).value.value, First(fs, target, VARINT).value.value);
    }
  }

  lemma {:induction false} FirstIsThere(fs: seq<Field>, target: nat, wire: nat)
    requires AllWellFormed(fs)
    ensures First(fs, target, wire).Some? ==> WireOf(First(fs, target, wire).value) == wire
                                              && WellFormed(First(fs, target, wire).value)
    decreases |fs|
  {
    hide WellFormed;
    if fs != [] {
      FirstIsThere(fs[1..], target, wire);
    }
  }

  lemma {:induction false} FirstAppend(a: seq<Field>, b: seq<Field>, target: nat, wire: nat)
    ensures First(a + b, target, wire)
         == if First(a, target, wire).Some? then First(a, target, wire) else First(b, target, wire)
  {
    if a == [] {
      assert a + b == b;
    } else {
      assert (a + b)[1..] == a[1..] + b;
      FirstAppend(a[1..], b, target, wire);
    }
  }

  lemma FirstOfText(num: nat, text: Bytes, rest: seq<Field>, target: nat, wire: nat)
    ensures First(Text(num, text) + rest, target, wire)
         == if text != [] && num == target && wire == DELIMITED then Some(Data(num, text)) else First(rest, target, wire)
  {
    FirstAppend(Text(num, text), rest, target, wire);
  }

  lemma FirstOfRequest(id: Bytes, name: Bytes, payload: Bytes, version: UInt64, target: nat, wire: nat)
    ensures First(RequestFields(id, name, payload, version), target, wire)
         == if id != [] && target == 1 && wire == DELIMITED then Some(Data(1, id))
            else if name != [] && target == 2 && wire == DELIMITED then Some(Data(2, name))
            else if target == 3 && wire == DELIMITED then Some(Data(3, payload))
            else if target == 4 && wire == VARINT then Some(Number(4, version))
            else None
  {
    var tail := [Data(3, payload), Number(4, version)];
    assert RequestFields(id, name, payload, version) == Text(1, id) + (Text(2, name) + tail);
    FirstOfText(1, id, Text(2, name) + tail, target, wire);
    FirstOfText(2, name, tail, target, wire);
    assert tail[1..] == [Number(4, version)] && tail[1..][1..] == [];
    assert First(tail[1..], target, wire) == if target == 4 && wire == VARINT then Some(Number(4, version)) else None;
  }

  /** A request's four fields come back as they were put in. */
  lemma RequestRoundTrip(id: Bytes, name: Bytes, payload: Bytes, version: UInt64)
    requires |id| < 0x8000_0000 && |name| < 0x8000_0000 && |payload| < 0x8000_0000
    requires |Encode(RequestFields(id, name, payload, version))| < 0x8000_0000
    ensures var buf := Encode(RequestFields(id, name, payload, version));
            && BytesField(buf, 1) == Done(if id == [] then None else Some(id))
            && BytesField(buf, 2) == Done(if name == [] then None else Some(name))
            && BytesField(buf, 3) == Done(Some(payload))
            && NumberField(buf, 4) == Done(version as nat)
  {
    hide Encode, BytesField, NumberField, RequestFields, First;
    var fs := RequestFields(id, name, payload, version);
    RequestIsWellFormed(id, name, payload, version);
    BytesRecovered(fs, 1);
    BytesRecovered(fs, 2);
    BytesRecovered(fs, 3);
    NumberRecovered(fs, 4);
    FirstOfRequest(id, name, payload, version, 1, DELIMITED);
    FirstOfRequest(id, name, payload, version, 2, DELIMITED);
    FirstOfRequest(id, name, payload, version, 3, DELIMITED);
    FirstOfRequest(id, name, payload, version, 4, VARINT);
  }

  lemma RequestIsWellFormed(id: Bytes, name: Bytes, payload: Bytes, version: UInt64)
    requires |id| < 0x8000_0000 && |name| < 0x8000_0000 && |payload| < 0x8000_0000
    ensures AllWellFormed(RequestFields(id, name, payload, version))
  {
  }

  /** What is passed over by wire type: eight bytes for 1, four for 5, a length and as many bytes for 2, and everything
      for the types that are not known. */
  lemma SkipByType(buf: Bytes, pos: nat, wire: nat)
    ensures Skip(buf, pos, 1) == Some(pos + 8) && Skip(buf, pos, 5) == Some(pos + 4)
    ensures Skip(buf, pos, 2) == if Value(buf, pos).None? then None
                                 else Moved(Value(buf, pos).value.1, AsInt(Value(buf, pos).value.0))
    ensures wire == 3 || wire == 4 || wire > 5 ==> Skip(buf, pos, wire) == Some(|buf|)
  {
    hide Value, AsInt, Moved;
  }

  /** A tag with field number 0 ends every search there, whatever comes after it. */
  lemma FieldZeroEnds(wire: nat, rest: Bytes, target: int, sought: nat)
    requires wire < 8
    ensures Find([wire] + rest, 0, target, sought) == Done(None)
  {
    var buf := [wire] + rest;
    assert Value(buf, 0) == Some((wire, 1)) by {
      assert Put(wire) == [wire] && Has(buf, 0, [wire]);
      RoundTrip(buf, 0, wire);
    }
    hide Value;
    FindStep(buf, 0, target, sought);
    hide Find, Skip;
  }

  // ---------- The bytes themselves ----------

  lemma SmallPut(n: nat)
    requires n < 128
    ensures Put(n) == [n]
  {
  }

  lemma SmallData(num: nat, data: Bytes)
    requires num < 16 && |data| < 128
    ensures PutField(Data(num, data)) == [8 * num + 2, |data|] + data
  {
    SmallPut(8 * num + 2);
    SmallPut(|data|);
    hide Put;
  }

  lemma SmallNumber(num: nat, value: UInt64)
    requires num < 16 && value < 128
    ensures PutField(Number(num, value)) == [8 * num, value]
  {
    SmallPut(8 * num);
    SmallPut(value);
    hide Put;
  }

  /** Small requests byte by byte: fields 1 to 3 are length-delimited and field 4 is a number, under the tags 10, 18, 26
      and 32 that proto3 gives them. */
  lemma RequestBytes(id: Bytes, name: Bytes, payload: Bytes, version: UInt64)
    requires 0 < |id| < 128 && 0 < |name| < 128 && |payload| < 128 && version < 128
    ensures Encode(RequestFields(id, name, payload, version))
         == ([10, |id|] + id) + (([18, |name|] + name) + (([26, |payload|] + payload) + [32, version]))
  {
    hide PutField, Encode;
    var tail := [Data(3, payload), Number(4, version)];
    EncodeAppend(Text(1, id), Text(2, name) + tail);
    EncodeAppend(Text(2, name), tail);
    assert Text(1, id) + (Text(2, name) + tail) == RequestFields(id, name, payload, version);
    EncodeOne(Data(1, id));
    EncodeOne(Data(2, name));
    EncodeTwo(Data(3, payload), Number(4, version));
    SmallData(1, id);
    SmallData(2, name);
    SmallData(3, payload);
    SmallNumber(4, version);
  }

  // ---------- A reader that does not end ----------

  lemma PutOfWord(value: nat)
    requires value < 0x1_0000_0000
    ensures |Put(value)| <= 5 && (value >= 0x1000_0000 ==> |Put(value)| == 5)
  {
    var a, b, c, d := value / 0x80, value / 0x4000, value / 0x20_0000, value / 0x1000_0000;
    assert a / 0x80 == b && b / 0x80 == c && c / 0x80 == d && d < 0x80;
    assert |Put(d)| == 1;
    assert |Put(c)| <= 2 && (c >= 0x80 ==> |Put(c)| == 2);
    assert |Put(b)| <= 3 && (c >= 0x80 ==> |Put(b)| == 3);
    assert |Put(a)| <= 4 && (c >= 0x80 ==> |Put(a)| == 4);
  }

  /** Somewhere in the buffer a length follows a tag that counts as negative. */
  predicate NegativeAt(buf: Bytes, pos: nat) {
    var s := ReadField(buf, pos);
    s.At? && s.wire == DELIMITED && Value(buf, s.pos).Some? && AsInt(Value(buf, s.pos).value.0) < 0
  }

  /** Only such a length can keep a reader from ending. */
  lemma OnlyNegativeLengthsLoop(buf: Bytes, target: int, wire: nat)
    requires forall pos: nat :: !NegativeAt(buf, pos)
    ensures Find(buf, 0, target, wire) != Loops
  {
    var f := Finder(buf, target, wire);
    FinderIsBounded(buf, target, wire);
    forall pos: nat ensures f(pos).Go? ==> f(pos).pos > pos {
      assert !NegativeAt(buf, pos);
      hide Get, AsInt;
    }
    ForwardEnds(f, |buf|, 0);
  }

  lemma BackwardSkips(num: nat, len: nat, rest: Bytes)
    requires 1 <= num < 0x2000_0000 && |Put(Tag(num, DELIMITED))| + 5 + len == 0x1_0000_0000
    ensures var tag := Put(Tag(num, DELIMITED));
            var buf := tag + Put(len) + rest;
            ReadField(buf, 0) == At(num, DELIMITED, |tag|) && Skip(buf, |tag|, DELIMITED) == Some(0)
  {
    var tag := Put(Tag(num, DELIMITED));
    var buf := tag + Put(len) + rest;
    PutOfWord(Tag(num, DELIMITED));
    PutOfWord(len);
    NegativeLength(len, |tag| + 5);
    hide Put, Value, Tag, ReadField, Has, AsInt;
    HasWhole(buf);
    HasParts(buf, 0, tag + Put(len), rest);
    HasParts(buf, 0, tag, Put(len));
    TagReads(buf, 0, Data(num, []));
    RoundTrip(buf, |tag|, len);
  }

  lemma NegativeLength(len: nat, n: nat)
    requires 0 < n < 0x8000_0000 && n + len == 0x1_0000_0000
    ensures AsInt(len) + n == 0
  {
  }

  /** And it can: a field whose length sends the cursor back to the field's own tag, whatever follows, when
      reading for any other field. */
  lemma BackwardLoops(num: nat, len: nat, rest: Bytes, target: int, wire: nat)
    requires 1 <= num < 0x2000_0000 && !(num == target && wire == DELIMITED)
    requires |Put(Tag(num, DELIMITED))| + 5 + len == 0x1_0000_0000
    ensures Find(Put(Tag(num, DELIMITED)) + Put(len) + rest, 0, target, wire) == Loops
  {
    var buf := Put(Tag(num, DELIMITED)) + Put(len) + rest;
    BackwardSkips(num, len, rest);
    hide Put, Skip, ReadField;
    StandingStill(Finder(buf, target, wire), 0, |buf| + 1);
  }
}
