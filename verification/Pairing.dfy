/** Requests and responses on one pipe: calls made by the client, tasks run by the server in any
    order, responses and events interleaved by one writer, and the client matching them by identifier. */
module Pairing {
  import opened Prelude
  import opened Address
  import opened Varint
  import opened Scanning
  import opened Proto
  import opened Envelope

  // ---------- Request identifiers ----------

  function Digits(n: nat): (b: Bytes)
    ensures b != [] && forall i | 0 <= i < |b| :: 48 <= b[i] <= 57
  {
    if n < 10 then [48 + n] else Digits(n / 10) + [48 + n % 10]
  }

  function DigitsValue(b: Bytes): int {
    if b == [] then 0 else 10 * DigitsValue(b[..|b| - 1]) + (b[|b| - 1] as int - 48)
  }

  const TWO_32: nat := 0x1_0000_0000

  /** The counter is a 32-bit signed integer: it wraps to negative numbers. */
  function IdOf(n: nat): (id: Bytes)
    ensures id != []
  {
    var w := n % TWO_32;
    if w < 0x8000_0000 then Digits(w) else [45] + Digits(TWO_32 - w)
  }

  lemma {:induction false} DigitsReadBack(n: nat)
    ensures DigitsValue(Digits(n)) == n
  {
    if n < 10 {
      assert Digits(n)[..0] == [];
    } else {
      DigitsReadBack(n / 10);
      assert Digits(n)[..|Digits(n)| - 1] == Digits(n / 10);
    }
  }

  lemma PositiveId(n: nat)
    requires n < 0x8000_0000
    ensures IdOf(n) == Digits(n)
  {
    assert n % TWO_32 == n;
    hide Digits;
  }

  lemma NegativeId(n: nat)
    requires 0x8000_0000 <= n < 0x1_0000_0000
    ensures IdOf(n) == [45] + Digits(0x1_0000_0000 - n)
  {
    assert n % TWO_32 == n;
    hide Digits;
  }

  /** The identifier is the counter in decimal, while it is positive, and the negative number it wraps to after that. */
  lemma IdMeans(n: nat)
    requires n < 0x1_0000_0000
    ensures n < 0x8000_0000 ==> DigitsValue(IdOf(n)) == n
    ensures n >= 0x8000_0000 ==> IdOf(n)[0] == 45 && DigitsValue(IdOf(n)[1..]) == 0x1_0000_0000 - n
  {
    hide DigitsValue, Digits, IdOf;
    if n < 0x8000_0000 {
      PositiveId(n);
      DigitsReadBack(n);
    } else {
      NegativeId(n);
      DigitsReadBack(0x1_0000_0000 - n);
      assert IdOf(n)[1..] == Digits(0x1_0000_0000 - n);
    }
  }

  /** Fewer than 2^32 apart, two calls never share an identifier. */
  lemma IdsDiffer(a: nat, b: nat)
    requires a < b < a + TWO_32
    ensures IdOf(a) != IdOf(b)
  {
    var x, y := a % TWO_32, b % TWO_32;
    assert x != y;
    DigitsReadBack(x);
    DigitsReadBack(y);
    DigitsReadBack(TWO_32 - x);
    DigitsReadBack(TWO_32 - y);
    hide DigitsValue;
    var dx, dy := Digits(TWO_32 - x), Digits(TWO_32 - y);
    assert ([45] + dx)[1..] == dx && ([45] + dy)[1..] == dy;
    assert Digits(x)[0] != 45 && Digits(y)[0] != 45;
  }

  // ---------- What the server answers ----------

  /** The error taxonomy, by the code it carries. */
  datatype Failure = InvalidState | ConfigInvalid | NotFound | Auth | Timeout | AlreadyRunning
                   | Subscription | Core | Tun | Route | Dns | Proxy | Internal

  function Code(f: Failure): Int32 {
    match f
    case InvalidState | AlreadyRunning => 409
    case ConfigInvalid => 422
    case NotFound => 404
    case Auth => 401
    case Timeout => 504
    case Subscription => 600
    case Core => 601
    case Tun => 602
    case Route => 603
    case Dns => 604
    case Proxy => 605
    case Internal => 500
  }

  /** How a dispatched request ends: with a payload, with an error and its text, or in a panic. */
  datatype Dispatched = Fine(payload: Bytes) | Failed(failure: Failure, text: Bytes) | Panicked(detail: Bytes)

  const OK_TEXT: Bytes := [111, 107]

  /** "internal handler panic: " */
  const PANIC_TEXT: Bytes := [105, 110, 116, 101, 114, 110, 97, 108, 32, 104, 97, 110, 100, 108, 101, 114, 32,
                              112, 97, 110, 105, 99, 58, 32]

  function Reply(id: Bytes, d: Dispatched): Response {
    match d
    case Fine(payload) => Response(id, 0, OK_TEXT, payload)
    case Failed(failure, text) => Response(id, Code(failure), text, [])
    case Panicked(detail) => Response(id, 500, PANIC_TEXT + detail, [])
  }

  /** Whatever the handler does, the client sees a response under the request's identifier, with
      the code, message and payload the server put in. */
  lemma ReplyIsRecognised(id: Bytes, d: Dispatched)
    requires Framed(ResponseFields(Reply(id, d)))
    ensures var r := Reply(id, d);
            var frame := Encode(ResponseFields(r));
            && DecodeResponse(frame) == Done(Some(IpcResponse(r.code, r.message, r.payload)))
            && OrEmpty(BytesField(frame, 1)) == Done(id)
  {
    hide Encode, ResponseFields, DecodeResponse;
    ResponseIsRecognised(Reply(id, d));
  }

  // ---------- The connection ----------

  datatype Call = Waiting | Completed(response: IpcResponse) | GivenUp

  /** A frame on its way to the client; `origin` says which call it answers, for the argument only. */
  datatype Packet = Packet(frame: Bytes, origin: Option<nat>)

  datatype Net = Net(
    calls: seq<Call>,            // by the order of the calls
    pending: map<Bytes, nat>,    // the client's table, from identifier to call
    unsent: set<nat>,            // registered, waiting for the write lock
    wire: seq<nat>,              // requests in the pipe, first written first
    working: set<nat>,           // request tasks on the server
    produced: map<nat, Response>,// what each task answered
    channel: seq<Packet>)        // the server's single writer, and the pipe behind it

  const START := Net([], map[], {}, [], {}, map[], [])

  datatype Step =
    | Invoke
    | Write(call: nat)
    | WriteFails(call: nat)
    | GiveUp(call: nat)
    | Take
    | Finish(call: nat, outcome: Dispatched)
    | Publish(event: Event)
    | Reject(text: Bytes)
    | Receive

  function Rejection(text: Bytes): Response {
    Response([], 422, text, [])
  }

  /** Removes the entry of a call that ends without a response. */
  function Dropped(n: Net, i: nat): Net
    requires i < |n.calls|
  {
    n.(calls := n.calls[i := GivenUp], pending := n.pending - {IdOf(i + 1)})
  }

  /** What the receive loop does with one frame that does not hang it. */
  function Delivered(n: Net, frame: Bytes): Net {
    match DecodeResponse(frame)
    case Done(Some(response)) =>
      (match OrEmpty(BytesField(frame, 1))
       case Threw | Loops => n
       case Done(id) =>
         if id in n.pending && n.pending[id] < |n.calls| then
           n.(calls := n.calls[n.pending[id] := Completed(response)], pending := n.pending - {id})
         else n)
    case _ => n
  }

  /** One step; a step that is not possible leaves everything as it is. */
  function Do(n: Net, s: Step): Net {
    match s
    case Invoke =>
      var i := |n.calls|;
      n.(calls := n.calls + [Waiting], pending := n.pending[IdOf(i + 1) := i], unsent := n.unsent + {i})
    case Write(i) =>
      if i in n.unsent then n.(unsent := n.unsent - {i}, wire := n.wire + [i]) else n
    case WriteFails(i) =>
      if i in n.unsent && i < |n.calls| && n.calls[i].Waiting? then Dropped(n.(unsent := n.unsent - {i}), i) else n
    case GiveUp(i) =>
      if i < |n.calls| && n.calls[i].Waiting? && i !in n.unsent then Dropped(n, i) else n
    case Take =>
      if n.wire == [] then n else n.(wire := n.wire[1..], working := n.working + {n.wire[0]})
    case Finish(i, d) =>
      if i in n.working && Framed(ResponseFields(Reply(IdOf(i + 1), d))) then
        var r := Reply(IdOf(i + 1), d);
        n.(working := n.working - {i}, produced := n.produced[i := r],
           channel := n.channel + [Packet(Encode(ResponseFields(r)), Some(i))])
      else n
    case Publish(event) =>
      if Framed(EventFields(event)) then n.(channel := n.channel + [Packet(Encode(EventFields(event)), None)]) else n
    case Reject(text) =>
      // The answer to a request that could not be decoded carries no identifier.
      var r := Rejection(text);
      if Framed(ResponseFields(r)) then n.(channel := n.channel + [Packet(Encode(ResponseFields(r)), None)]) else n
    case Receive =>
      if n.channel == [] then n else Delivered(n.(channel := n.channel[1..]), n.channel[0].frame)
  }

  function Run(steps: seq<Step>): Net
    decreases |steps|
  {
    if steps == [] then START else Do(Run(steps[..|steps| - 1]), steps[|steps| - 1])
  }
}
