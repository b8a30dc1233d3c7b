/** The client's side of the pipe: the counter, the table of pending calls, and what the receive
    loop does with a frame. Each method does to them what the connection's step does. */
module Client {
  import opened Prelude
  import opened Varint
  import opened Scanning
  import opened Proto
  import opened Envelope
  import opened Pairing

  /** What the loop reports: an event, or nothing; a frame it cannot read ends it. */
  datatype Received = Handled | Raised(event: Event) | Broken

  class NetworkServiceClient {
    var nextId: nat
    var pending: map<Bytes, nat>
    var calls: seq<Call>

    ghost predicate Valid()
      reads this
    {
      nextId == |calls|
    }

    /** The connection as this client sees it. */
    ghost predicate Mirrors(n: Net)
      reads this
    {
      n.calls == calls && n.pending == pending
    }

    constructor ()
      ensures Valid() && Mirrors(START)
    {
      nextId, pending, calls := 0, map[], [];
    }

    /** The start of a call: a new identifier, and an entry in the table. */
    method Register() returns (id: Bytes)
      requires Valid()
      modifies this
      ensures Valid() && id == IdOf(nextId)
      ensures forall n | old(Mirrors(n)) :: Mirrors(Do(n, Invoke))
    {
      nextId := nextId + 1;
      id := IdOf(nextId);
      calls := calls + [Waiting];
      pending := pending[id := nextId - 1];
    }

    /** A call that could not be written, or was cancelled while it waited. */
    method Abandon(call: nat)
      requires Valid() && call < |calls| && calls[call].Waiting?
      modifies this
      ensures Valid()
      ensures forall n | old(Mirrors(n)) && call !in n.unsent :: Mirrors(Do(n, Step.GiveUp(call)))
      ensures forall n | old(Mirrors(n)) && call in n.unsent :: Mirrors(Do(n, WriteFails(call)))
    {
      pending := pending - {IdOf(call + 1)};
      calls := calls[call := GivenUp];
    }

    /** One frame off the pipe, of those the loop does not hang on. */
    method Receive(frame: Bytes) returns (r: Received)
      requires Valid() && Returns(frame)
      modifies this
      ensures Valid()
      ensures forall n | old(Mirrors(n)) :: Mirrors(Delivered(n, frame))
      ensures DecodeResponse(frame) == Done(None) ==> calls == old(calls) && pending == old(pending)
      ensures r.Raised? <==> DecodeResponse(frame) == Done(None) && DecodeEvent(frame).Done?
      ensures r.Raised? ==> DecodeEvent(frame) == Done(r.event)
    {
      hide DecodeResponse, BytesField, NumberField;
      var decoded := TryDecodeResponse(frame);
      if decoded.Threw? {
        return Broken;
      }
      var reader := new ProtoReader(frame);
      var first := reader.ReadBytesField(1);
      if first.Threw? {
        return Broken;
      }
      if decoded.value.Some? {
        var id := OrEmpty(first).value;
        if id in pending && pending[id] < |calls| {
          calls := calls[pending[id] := Completed(decoded.value.value)];
          pending := pending - {id};
        }
        return Handled;
      }
      var payload := reader.ReadBytesField(2);
      if payload.Threw? {
        return Broken;
      }
      var timestamp := reader.ReadUInt64Field(3);
      if timestamp.Threw? {
        return Broken;
      }
      r := Raised(Event.Event(OrEmpty(first).value, OrEmpty(payload).value, AsLong(timestamp.value)));
    }
  }
}
