/** Responses and events share one pipe and carry no type tag: the client tells them apart by the
    fields that proto3 leaves in when it drops defaults. */
module Envelope {
  import opened Prelude
  import opened Slices
  import opened Varint
  import opened Scanning
  import opened Proto
  import opened ProtoRoundTrip

  type Int32 = n: int | -0x8000_0000 <= n < 0x8000_0000

  type Int64 = n: int | -0x8000_0000_0000_0000 <= n < 0x8000_0000_0000_0000

  datatype Response = Response(requestId: Bytes, code: Int32, message: Bytes, payload: Bytes)

  datatype Event = Event(eventType: Bytes, payload: Bytes, timestamp: Int64)

  /** What the client hands to the caller. */
  datatype IpcResponse = IpcResponse(code: int, message: Bytes, payload: Bytes)

  // ---------- Writing: proto3, fields in increasing order, defaults left out ----------

  /** A signed number as the 64 bits of its varint. */
  function Signed(n: Int64): UInt64 {
    if n < 0 then n + TWO_64 else n
  }

  function Num(num: nat, n: Int64): seq<Field> {
    if n == 0 then [] else [Number(num, Signed(n))]
  }

  function ResponseFields(r: Response): seq<Field> {
    Text(1, r.requestId) + (Num(2, r.code) + (Text(3, r.message) + Text(4, r.payload)))
  }

  function EventFields(ev: Event): seq<Field> {
    Text(1, ev.eventType) + (Text(2, ev.payload) + Num(3, ev.timestamp))
  }

  // ---------- Reading ----------

  /** Past a value, or before it, in the classifier's own way: lengths are read in 32-bit arithmetic, and unknown
      wire types are not skipped at all. `None` as in `Proto.Skip`. */
  function SkipField(buf: Bytes, pos: nat, wire: nat): Option<nat> {
    if wire == VARINT then
      match Value(buf, pos) { case None => None case Some((_, next)) => Some(next) }
    else if wire == FIXED64 then Some(pos + 8)
    else if wire == DELIMITED then
      match Get(buf, pos, 0, 0, 32) { case None => None case Some((len, next)) => Moved(next, AsInt(len)) }
    else if wire == FIXED32 then Some(pos + 4)
    else Some(pos)
  }

  /** A number in field 2 or text in field 3 gives a response away. */
  predicate GivesAway(num: int, wire: nat) {
    (num == 2 && wire == VARINT) || (num == 3 && wire == DELIMITED)
  }

  function ClassifyRound(buf: Bytes, pos: nat): Round<bool> {
    if pos >= |buf| then Stop(Done(false))
    else match Value(buf, pos)
      case None => Stop(Threw)
      case Some((tag, next)) =>
        if GivesAway(AsInt(tag / 8), tag % 8) then Stop(Done(true))
        else match SkipField(buf, next, tag % 8)
          case None => Stop(Threw)
          case Some(after) => Go(after)
  }

  function Classifier(buf: Bytes): nat -> Round<bool> {
    (pos: nat) => ClassifyRound(buf, pos)
  }

  function IsResponse(buf: Bytes, pos: nat): Outcome<bool> {
    Scan(Classifier(buf), |buf|, pos)
  }

  lemma ClassifierIsBounded(buf: Bytes)
    ensures Bounded(Classifier(buf), |buf|)
  {
    hide SkipField, Value;
  }

  /** The classifier ends exactly when no length leads its cursor back to where it has been. */
  lemma ClassifierEndsExactly(buf: Bytes)
    ensures IsResponse(buf, 0) == Loops <==> ComesBack(Classifier(buf), 0)
  {
    ClassifierIsBounded(buf);
    EndsInTime(Classifier(buf), |buf|, 0);
  }

  lemma ClassifyStep(buf: Bytes, pos: nat)
    ensures IsResponse(buf, pos) ==
            match ClassifyRound(buf, pos) case Stop(r) => r case Go(after) => IsResponse(buf, after)
  {
    ClassifierIsBounded(buf);
    ScanRound(Classifier(buf), |buf|, pos);
    hide ClassifyRound, Scan;
  }

  /** Absent text reads as empty. */
  function OrEmpty(o: Outcome<Option<Bytes>>): Outcome<Bytes> {
    match o case Threw => Threw case Loops => Loops case Done(None) => Done([]) case Done(Some(b)) => Done(b)
  }

  /** One reading and then the next, unless the first throws or never ends. */
  function Then<A, B>(a: Outcome<A>, next: A -> Outcome<B>): Outcome<B> {
    match a case Threw => Threw case Loops => Loops case Done(v) => next(v)
  }

  function DecodeResponse(buf: Bytes): Outcome<Option<IpcResponse>> {
    match IsResponse(buf, 0)
    case Threw => Threw
    case Loops => Loops
    case Done(false) => Done(None)
    case Done(true) =>
      Then(NumberField(buf, 2), code =>
        Then(OrEmpty(BytesField(buf, 3)), message =>
          Then(OrEmpty(BytesField(buf, 4)), payload => Done(Some(IpcResponse(AsInt(code), message, payload))))))
  }

  /** `(long)x` */
  function AsLong(x: nat): (n: Int64) {
    var low := x % TWO_64;
    if low < 0x8000_0000_0000_0000 then low else low - TWO_64
  }

  function DecodeEvent(buf: Bytes): Outcome<Event> {
    Then(OrEmpty(BytesField(buf, 1)), eventType =>
      Then(OrEmpty(BytesField(buf, 2)), payload =>
        Then(NumberField(buf, 3), timestamp => Done(Event(eventType, payload, AsLong(timestamp))))))
  }

  /** Every reading that the receive loop asks for on this frame ends. */
  predicate Returns(frame: Bytes) {
    match DecodeResponse(frame)
    case Threw => true
    case Loops => false
    case Done(Some(_)) => BytesField(frame, 1) != Loops
    case Done(None) => DecodeEvent(frame) != Loops
  }

  method TryDecodeResponse(frame: Bytes) returns (r: Outcome<Option<IpcResponse>>)
    requires DecodeResponse(frame) != Loops
    ensures r == DecodeResponse(frame)
  {
    hide Get, BytesField, NumberField;
    var isResponse, pos: nat := false, 0;
    ghost var left: nat := |frame| + 1;
    while pos < |frame|
      invariant After(Classifier(frame), pos, left) == After(Classifier(frame), 0, |frame| + 1)
      decreases left
    {
      assert left > 0;
      left := left - 1;
      var tag := Varint.Read(frame, pos, 64);
      if tag.None? {
        return Threw;
      }
      var num, wire := AsInt(tag.value.0 / 8), tag.value.0 % 8;
      if (num == 2 && wire == VARINT) || (num == 3 && wire == DELIMITED) {
        isResponse := true;
        break;
      }
      var after := SkipField(frame, tag.value.1, wire);
      if after.None? {
        return Threw;
      }
      pos := after.value;
    }
    assert IsResponse(frame, 0) == Done(isResponse);
    if !isResponse {
      return Done(None);
    }
    r := ReadResponse(frame);
  }

  method ReadResponse(frame: Bytes) returns (r: Outcome<Option<IpcResponse>>)
    requires DecodeResponse(frame) != Loops && IsResponse(frame, 0) == Done(true)
    ensures r == DecodeResponse(frame)
  {
    hide IsResponse, BytesField, NumberField;
    var reader := new ProtoReader(frame);
    var code := reader.ReadUInt64Field(2);
    if code.Threw? {
      return Threw;
    }
    var message := reader.ReadBytesField(3);
    if message.Threw? {
      return Threw;
    }
    var payload := reader.ReadBytesField(4);
    if payload.Threw? {
      return Threw;
    }
    r := Done(Some(IpcResponse(AsInt(code.value), OrEmpty(message).value, OrEmpty(payload).value)));
  }

  // ---------- Telling them apart ----------

  lemma ContentsAreSkippedHere(buf: Bytes, pos: nat, f: Field)
    requires |buf| < 0x8000_0000 && WellFormed(f) && Has(buf, pos, Contents(f))
    ensures SkipField(buf, pos, WireOf(f)) == Some(pos + |Contents(f)|)
  {
    hide Put, Value, Get;
    match f
    case Number(_, v) => RoundTrip(buf, pos, v);
    case Fixed64(_, b) =>
    case Data(_, b) =>
      HasParts(buf, pos, Put(|b|), b);
      RoundTrip32(buf, pos, |b|);
    case Fixed32(_, b) =>
  }

  lemma OneFieldFurther(buf: Bytes, pos: nat, tag: nat, next: nat, after: nat)
    requires Value(buf, pos) == Some((tag, next)) && SkipField(buf, next, tag % 8) == Some(after)
    ensures IsResponse(buf, pos) == if GivesAway(AsInt(tag / 8), tag % 8) then Done(true) else IsResponse(buf, after)
  {
    hide SkipField, AsInt, Value, GivesAway, IsResponse;
    ClassifyStep(buf, pos);
    assert pos < |buf| by {
      ValueIsInside(buf, pos);
    }
  }

  lemma ValueIsInside(buf: Bytes, pos: nat)
    requires Value(buf, pos).Some?
    ensures pos < |buf|
  {
  }

  /** Some field gives a response away. */
  ghost predicate AnyGivesAway(fs: seq<Field>) {
    First(fs, 2, VARINT).Some? || First(fs, 3, DELIMITED).Some?
  }

  lemma GivesAwayFromHead(fs: seq<Field>)
    requires fs != []
    ensures AnyGivesAway(fs) <==> GivesAway(fs[0].num, WireOf(fs[0])) || AnyGivesAway(fs[1..])
  {
  }

  /** The classifier says response exactly when some field gives it away. */
  lemma {:induction false} ClassifiedByFields(buf: Bytes, pos: nat, fs: seq<Field>)
    requires |buf| < 0x8000_0000 && AllWellFormed(fs)
    requires Has(buf, pos, Encode(fs)) && pos + |Encode(fs)| == |buf|
    ensures IsResponse(buf, pos) == if AnyGivesAway(fs) then Done(true) else Done(false)
    decreases |fs|
  {
    hide ReadField, Skip, SkipField, WellFormed, Has, Encode, Contents, Tag, AsInt, Value, IsResponse, First;
    hide AllWellFormed, AnyGivesAway, GivesAway;
    if fs == [] {
      EndIsReached(buf, pos, fs);
    } else {
      TailIsWellFormed(fs);
      GivesAwayFromHead(fs);
      var next, after := FieldStands(buf, pos, fs);
      ContentsAreSkippedHere(buf, next, fs[0]);
      OneFieldFurther(buf, pos, Tag(fs[0].num, WireOf(fs[0])), next, after);
      ClassifiedByFields(buf, after, fs[1..]);
    }
  }

  lemma EndIsReached(buf: Bytes, pos: nat, fs: seq<Field>)
    requires pos + |Encode(fs)| == |buf| && fs == []
    ensures IsResponse(buf, pos) == Done(false) && !AnyGivesAway(fs)
  {
    hide Put, Value, IsResponse;
    ClassifyStep(buf, pos);
  }

  lemma FirstOfNum(num: nat, n: Int64, rest: seq<Field>, target: nat, wire: nat)
    ensures First(Num(num, n) + rest, target, wire)
         == if n != 0 && num == target && wire == VARINT then Some(Number(num, Signed(n))) else First(rest, target, wire)
  {
    FirstAppend(Num(num, n), rest, target, wire);
  }

  lemma FirstOfLast(f: seq<Field>, target: nat, wire: nat)
    ensures First(f + [], target, wire) == First(f, target, wire)
  {
    assert f + [] == f;
  }

  lemma FirstOfResponse(r: Response, target: nat, wire: nat)
    ensures First(ResponseFields(r), target, wire)
         == if target == 1 && wire == DELIMITED && r.requestId != [] then Some(Data(1, r.requestId))
            else if target == 2 && wire == VARINT && r.code != 0 then Some(Number(2, Signed(r.code)))
            else if target == 3 && wire == DELIMITED && r.message != [] then Some(Data(3, r.message))
            else if target == 4 && wire == DELIMITED && r.payload != [] then Some(Data(4, r.payload))
            else None
  {
    var last := Text(4, r.payload);
    FirstOfText(1, r.requestId, Num(2, r.code) + (Text(3, r.message) + last), target, wire);
    FirstOfNum(2, r.code, Text(3, r.message) + last, target, wire);
    FirstOfText(3, r.message, last, target, wire);
    FirstOfText(4, r.payload, [], target, wire);
    FirstOfLast(last, target, wire);
  }

  lemma FirstOfEvent(ev: Event, target: nat, wire: nat)
    ensures First(EventFields(ev), target, wire)
         == if target == 1 && wire == DELIMITED && ev.eventType != [] then Some(Data(1, ev.eventType))
            else if target == 2 && wire == DELIMITED && ev.payload != [] then Some(Data(2, ev.payload))
            else if target == 3 && wire == VARINT && ev.timestamp != 0 then Some(Number(3, Signed(ev.timestamp)))
            else None
  {
    var last := Num(3, ev.timestamp);
    FirstOfText(1, ev.eventType, Text(2, ev.payload) + last, target, wire);
    FirstOfText(2, ev.payload, last, target, wire);
    FirstOfNum(3, ev.timestamp, [], target, wire);
    FirstOfLast(last, target, wire);
  }

  /** A frame the protocol carries: at most 16 MiB. */
  predicate Framed(fs: seq<Field>) {
    |Encode(fs)| <= 0x100_0000
  }

  lemma {:induction false} FramedIsWellFormed(fs: seq<Field>)
    requires |Encode(fs)| < 0x8000_0000
    requires forall i | 0 <= i < |fs| :: (fs[i].Data? || fs[i].Number?) && 1 <= fs[i].num <= 4
    ensures AllWellFormed(fs)
    decreases |fs|
  {
    hide Put;
    if fs != [] {
      FramedIsWellFormed(fs[1..]);
      assert forall i | 0 < i < |fs| :: fs[i] == fs[1..][i - 1];
    }
  }

  /** Every response with a code or a message arrives as the response it is, under its own request;
      one with neither is taken for an event. */
  lemma ResponseIsRecognised(r: Response)
    requires Framed(ResponseFields(r))
    ensures var frame := Encode(ResponseFields(r));
            && DecodeResponse(frame) == Done(if r.code != 0 || r.message != []
                                             then Some(IpcResponse(r.code, r.message, r.payload)) else None)
            && OrEmpty(BytesField(frame, 1)) == Done(r.requestId)
            && (r.code != 0 || r.message != [] ==> Returns(frame))
  {
    hide Encode, BytesField, NumberField, IsResponse, First, ResponseFields;
    var fs := ResponseFields(r);
    var frame := Encode(fs);
    ResponseIsWellFormed(r);
    HasWhole(frame);
    ClassifiedByFields(frame, 0, fs);
    FirstOfResponse(r, 2, VARINT);
    FirstOfResponse(r, 3, DELIMITED);
    NumberRecovered(fs, 2);
    BytesRecovered(fs, 3);
    BytesRecovered(fs, 4);
    BytesRecovered(fs, 1);
    FirstOfResponse(r, 4, DELIMITED);
    FirstOfResponse(r, 1, DELIMITED);
    SignedReadsBack(r.code);
  }

  lemma ResponseIsWellFormed(r: Response)
    requires Framed(ResponseFields(r))
    ensures AllWellFormed(ResponseFields(r))
  {
    hide Encode;
    FramedIsWellFormed(ResponseFields(r));
  }

  /** The cast to `int` undoes the sign extension. */
  lemma SignedReadsBack(n: Int32)
    ensures AsInt(Signed(n)) == n
  {
  }

  /** No event is ever taken for a response, and its three fields arrive intact. */
  lemma EventIsNotAResponse(ev: Event)
    requires Framed(EventFields(ev))
    ensures var frame := Encode(EventFields(ev));
            && DecodeResponse(frame) == Done(None)
            && DecodeEvent(frame) == Done(ev) && Returns(frame)
  {
    hide Encode, BytesField, NumberField, IsResponse, First, EventFields;
    var fs := EventFields(ev);
    var frame := Encode(fs);
    EventIsWellFormed(ev);
    HasWhole(frame);
    ClassifiedByFields(frame, 0, fs);
    FirstOfEvent(ev, 2, VARINT);
    FirstOfEvent(ev, 3, DELIMITED);
    BytesRecovered(fs, 1);
    BytesRecovered(fs, 2);
    NumberRecovered(fs, 3);
    FirstOfEvent(ev, 1, DELIMITED);
    FirstOfEvent(ev, 2, DELIMITED);
    FirstOfEvent(ev, 3, VARINT);
  }

  lemma EventIsWellFormed(ev: Event)
    requires Framed(EventFields(ev))
    ensures AllWellFormed(EventFields(ev))
  {
    hide Encode;
    FramedIsWellFormed(EventFields(ev));
  }

  /** The classifier's own skipping: unknown wire types are not passed over. */
  lemma SkipFieldByType(buf: Bytes, pos: nat, wire: nat)
    ensures SkipField(buf, pos, 1) == Some(pos + 8) && SkipField(buf, pos, 5) == Some(pos + 4)
    ensures wire == 3 || wire == 4 || wire > 5 ==> SkipField(buf, pos, wire) == Some(pos)
  {
    hide Value, Get, AsInt, Moved;
  }

  // ---------- Which bytes keep the classifier from ending ----------

  /** A tag here is followed by a length that counts as negative in the classifier's 32-bit arithmetic. */
  predicate NegativeHere(buf: Bytes, pos: nat) {
    match Value(buf, pos)
    case None => false
    case Some((tag, next)) => tag % 8 == DELIMITED && Get(buf, next, 0, 0, 32).Some? && AsInt(Get(buf, next, 0, 0, 32).value.0) < 0
  }

  /** Only such a length can do it; unknown wire types, which are not skipped, cannot. */
  lemma OnlyNegativeLengthsLoopHere(buf: Bytes)
    requires forall pos: nat :: !NegativeHere(buf, pos)
    ensures IsResponse(buf, 0) != Loops
  {
    var f := Classifier(buf);
    ClassifierIsBounded(buf);
    forall pos: nat ensures f(pos).Go? ==> f(pos).pos > pos {
      assert !NegativeHere(buf, pos);
      hide Get, AsInt, Value;
      if Value(buf, pos).Some? {
        ValueMovesOn(buf, pos);
        var next := Value(buf, pos).value.1;
        if Value(buf, next).Some? {
          ValueMovesOn(buf, next);
        }
        LengthMovesOn(buf, next);
      }
    }
    ForwardEnds(f, |buf|, 0);
  }

  lemma ValueMovesOn(buf: Bytes, pos: nat)
    requires Value(buf, pos).Some?
    ensures Value(buf, pos).value.1 > pos
  {
  }

  lemma LengthMovesOn(buf: Bytes, pos: nat)
    ensures Get(buf, pos, 0, 0, 32).Some? ==> Get(buf, pos, 0, 0, 32).value.1 > pos
  {
  }

  lemma BackwardSkipsHere(num: nat, len: nat, rest: Bytes)
    requires 1 <= num < 0x2000_0000 && |Put(Tag(num, DELIMITED))| + 5 + len == 0x1_0000_0000
    ensures var tag := Put(Tag(num, DELIMITED));
            var buf := tag + Put(len) + rest;
            && Value(buf, 0) == Some((Tag(num, DELIMITED), |tag|))
            && AsInt(Tag(num, DELIMITED) / 8) == num && Tag(num, DELIMITED) % 8 == DELIMITED
            && SkipField(buf, |tag|, DELIMITED) == Some(0)
  {
    var tag := Put(Tag(num, DELIMITED));
    var buf := tag + Put(len) + rest;
    PutOfWord(Tag(num, DELIMITED));
    PutOfWord(len);
    NegativeLength(len, |tag| + 5);
    hide Put, Value, Tag, Has, AsInt, Get, ReadField;
    HasWhole(buf);
    HasParts(buf, 0, tag + Put(len), rest);
    HasParts(buf, 0, tag, Put(len));
    TagReads(buf, 0, Data(num, []));
    RoundTrip32(buf, |tag|, len);
  }

  /** And it can: a field other than a message, whose length leads back to its own tag, whatever follows. */
  lemma BackwardLoopsHere(num: nat, len: nat, rest: Bytes)
    requires 1 <= num < 0x2000_0000 && num != 3 && |Put(Tag(num, DELIMITED))| + 5 + len == 0x1_0000_0000
    ensures IsResponse(Put(Tag(num, DELIMITED)) + Put(len) + rest, 0) == Loops
  {
    var buf := Put(Tag(num, DELIMITED)) + Put(len) + rest;
    BackwardSkipsHere(num, len, rest);
    hide Put, Value, Tag, AsInt, SkipField;
    StandingStill(Classifier(buf), 0, |buf| + 1);
  }
}
