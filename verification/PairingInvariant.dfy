/** What every step of the connection keeps, and what follows for the callers. */
module PairingInvariant {
  import opened Prelude
  import opened Varint
  import opened Scanning
  import opened Proto
  import opened Envelope
  import opened Pairing

  /** What the client makes of a response. */
  function AsSeen(r: Response): IpcResponse {
    IpcResponse(r.code, r.message, r.payload)
  }

  // ---------- The invariant, part by part ----------

  /** The table holds waiting calls under their own identifiers. */
  ghost predicate TableOk(n: Net) {
    forall id | id in n.pending ::
      n.pending[id] < |n.calls| && n.calls[n.pending[id]].Waiting? && id == IdOf(n.pending[id] + 1)
  }

  ghost predicate InTable(n: Net, i: nat) {
    IdOf(i + 1) in n.pending && n.pending[IdOf(i + 1)] == i
  }

  ghost predicate WaitersOk(n: Net) {
    forall i {:trigger InTable(n, i)} | 0 <= i < |n.calls| && n.calls[i].Waiting? :: InTable(n, i)
  }

  /** A request is in one place at a time, and answered at most once. */
  ghost predicate StagesOk(n: Net) {
    && (forall i | i in n.unsent :: i < |n.calls| && i !in n.wire && i !in n.working && i !in n.produced)
    && (forall i | i in n.wire :: i < |n.calls| && i !in n.working && i !in n.produced)
    && (forall i | i in n.working :: i < |n.calls| && i !in n.produced)
    && (forall i, j | 0 <= i < j < |n.wire| :: n.wire[i] != n.wire[j])
  }

  ghost predicate IsReply(r: Response, id: Bytes) {
    Framed(ResponseFields(r)) && exists d :: r == Reply(id, d)
  }

  ghost predicate ProducedOk(n: Net) {
    forall i | i in n.produced :: i < |n.calls| && IsReply(n.produced[i], IdOf(i + 1))
  }

  ghost predicate IsPush(frame: Bytes) {
    || (exists ev: Event :: Framed(EventFields(ev)) && frame == Encode(EventFields(ev)))
    || (exists text: Bytes :: Framed(ResponseFields(Rejection(text))) && frame == Encode(ResponseFields(Rejection(text))))
  }

  ghost predicate PacketOk(produced: map<nat, Response>, p: Packet) {
    match p.origin
    case None => IsPush(p.frame)
    case Some(i) => i in produced && p.frame == Encode(ResponseFields(produced[i]))
  }

  ghost predicate ChannelOk(n: Net) {
    forall k | 0 <= k < |n.channel| :: PacketOk(n.produced, n.channel[k])
  }

  /** A completed call got what the server produced for it. */
  ghost predicate CompletedOk(n: Net) {
    forall i | 0 <= i < |n.calls| && n.calls[i].Completed? ::
      i in n.produced && n.calls[i].response == AsSeen(n.produced[i])
  }

  /** Somewhere between the client's lock and the client's receive loop. */
  ghost predicate UnderWay(n: Net, i: nat) {
    i in n.unsent || i in n.wire || i in n.working || exists k | 0 <= k < |n.channel| :: n.channel[k].origin == Some(i)
  }

  ghost predicate NothingLost(n: Net) {
    forall i {:trigger UnderWay(n, i)} | 0 <= i < |n.calls| && n.calls[i].Waiting? :: UnderWay(n, i)
  }

  ghost predicate Sane(n: Net) {
    TableOk(n) && WaitersOk(n) && StagesOk(n) && ProducedOk(n) && ChannelOk(n) && CompletedOk(n) && NothingLost(n)
  }

  // ---------- Steps ----------

  lemma InvokeIsSane(n: Net)
    requires Sane(n) && |n.calls| + 1 < TWO_32
    ensures Sane(Do(n, Invoke))
  {
    hide IdOf, PacketOk, IsReply;
    var i, m := |n.calls|, Do(n, Invoke);
    forall id | id in n.pending ensures id != IdOf(i + 1) {
      IdsDiffer(n.pending[id] + 1, i + 1);
    }
    forall j {:trigger InTable(m, j)} | 0 <= j < |m.calls| && m.calls[j].Waiting? ensures InTable(m, j) {
      if j < i {
        assert InTable(n, j);
      }
    }
    forall j {:trigger UnderWay(m, j)} | 0 <= j < |m.calls| && m.calls[j].Waiting? ensures UnderWay(m, j) {
      if j < i {
        assert UnderWay(n, j);
      }
    }
  }

  lemma WriteIsSane(n: Net, i: nat)
    requires Sane(n)
    ensures Sane(Do(n, Write(i)))
  {
    hide IdOf, PacketOk, IsReply;
    var m := Do(n, Write(i));
    forall j {:trigger InTable(m, j)} | 0 <= j < |m.calls| && m.calls[j].Waiting? ensures InTable(m, j) {
      assert InTable(n, j);
    }
    forall j {:trigger UnderWay(m, j)} | 0 <= j < |m.calls| && m.calls[j].Waiting? ensures UnderWay(m, j) {
      assert UnderWay(n, j);
      if j == i && i in n.unsent {
        assert m.wire[|n.wire|] == i;
      }
    }
  }

  /** A call that ends without a response leaves the others alone. */
  lemma DropIsSane(n: Net, i: nat)
    requires Sane(n) && i < |n.calls| && n.calls[i].Waiting?
    ensures Sane(Dropped(n, i))
  {
    hide IdOf, PacketOk, IsReply;
    var m := Dropped(n, i);
    assert InTable(n, i);
    forall j {:trigger InTable(m, j)} | 0 <= j < |m.calls| && m.calls[j].Waiting? ensures InTable(m, j) {
      assert InTable(n, j);
    }
    forall j {:trigger UnderWay(m, j)} | 0 <= j < |m.calls| && m.calls[j].Waiting? ensures UnderWay(m, j) {
      assert UnderWay(n, j);
    }
  }

  lemma WriteFailsIsSane(n: Net, i: nat)
    requires Sane(n)
    ensures Sane(Do(n, WriteFails(i)))
  {
    hide IdOf, PacketOk, IsReply;
    var u := n.(unsent := n.unsent - {i});
    if i in n.unsent && i < |n.calls| && n.calls[i].Waiting? {
      var m := Dropped(u, i);
      assert InTable(n, i);
      forall j {:trigger InTable(m, j)} | 0 <= j < |m.calls| && m.calls[j].Waiting? ensures InTable(m, j) {
        assert InTable(n, j);
      }
      forall j {:trigger UnderWay(m, j)} | 0 <= j < |m.calls| && m.calls[j].Waiting? ensures UnderWay(m, j) {
        assert UnderWay(n, j);
      }
    }
  }

  lemma TakeKeepsStages(n: Net)
    requires StagesOk(n)
    ensures StagesOk(Do(n, Take))
    ensures n.wire != [] ==> forall i | i in n.wire :: i == n.wire[0] || i in n.wire[1..]
  {
    if n.wire != [] {
      var head, tail := n.wire[0], n.wire[1..];
      assert n.wire == [head] + tail;
      forall i | i in tail ensures i in n.wire && i != head {
        var k :| 0 <= k < |tail| && tail[k] == i;
        assert n.wire[k + 1] == i;
      }
      assert forall j | 0 <= j < |tail| :: tail[j] == n.wire[j + 1];
    }
  }

  lemma TakeIsSane(n: Net)
    requires Sane(n)
    ensures Sane(Do(n, Take))
  {
    hide IdOf, PacketOk, IsReply;
    var m := Do(n, Take);
    TakeKeepsStages(n);
    hide StagesOk;
    forall j {:trigger InTable(m, j)} | 0 <= j < |m.calls| && m.calls[j].Waiting? ensures InTable(m, j) {
      assert InTable(n, j);
    }
    forall j {:trigger UnderWay(m, j)} | 0 <= j < |m.calls| && m.calls[j].Waiting? ensures UnderWay(m, j) {
      assert UnderWay(n, j);
    }
  }

  /** A frame put at the end of the channel. */
  lemma SendIsSane(n: Net, p: Packet)
    requires Sane(n) && PacketOk(n.produced, p)
    ensures Sane(n.(channel := n.channel + [p]))
  {
    hide IdOf, PacketOk, IsReply;
    var m := n.(channel := n.channel + [p]);
    forall j {:trigger InTable(m, j)} | 0 <= j < |m.calls| && m.calls[j].Waiting? ensures InTable(m, j) {
      assert InTable(n, j);
    }
    forall j {:trigger UnderWay(m, j)} | 0 <= j < |m.calls| && m.calls[j].Waiting? ensures UnderWay(m, j) {
      assert UnderWay(n, j);
      if k :| 0 <= k < |n.channel| && n.channel[k].origin == Some(j) {
        assert m.channel[k].origin == Some(j);
      }
    }
  }

  lemma PublishIsSane(n: Net, event: Event)
    requires Sane(n)
    ensures Sane(Do(n, Publish(event)))
  {
    hide Encode, EventFields, Framed, Sane;
    if Framed(EventFields(event)) {
      assert IsPush(Encode(EventFields(event)));
      SendIsSane(n, Packet(Encode(EventFields(event)), None));
    }
  }

  lemma RejectIsSane(n: Net, text: Bytes)
    requires Sane(n)
    ensures Sane(Do(n, Reject(text)))
  {
    hide Encode, ResponseFields, Framed, Sane, Rejection;
    if Framed(ResponseFields(Rejection(text))) {
      assert IsPush(Encode(ResponseFields(Rejection(text))));
      SendIsSane(n, Packet(Encode(ResponseFields(Rejection(text))), None));
    }
  }

  lemma FinishIsSane(n: Net, i: nat, d: Dispatched)
    requires Sane(n)
    ensures Sane(Do(n, Finish(i, d)))
  {
    hide IdOf, Encode, ResponseFields, Framed, Reply;
    var r := Reply(IdOf(i + 1), d);
    var m := Do(n, Finish(i, d));
    if i in n.working && Framed(ResponseFields(r)) {
      assert IsReply(r, IdOf(i + 1));
      forall k | 0 <= k < |m.channel| ensures PacketOk(m.produced, m.channel[k]) {
        if k < |n.channel| {
          assert PacketOk(n.produced, n.channel[k]);
        }
      }
      hide PacketOk, IsReply;
      forall j {:trigger InTable(m, j)} | 0 <= j < |m.calls| && m.calls[j].Waiting? ensures InTable(m, j) {
        assert InTable(n, j);
      }
      forall j {:trigger UnderWay(m, j)} | 0 <= j < |m.calls| && m.calls[j].Waiting? ensures UnderWay(m, j) {
        assert UnderWay(n, j);
        assert m.channel[|n.channel|].origin == Some(i);
        if k :| 0 <= k < |n.channel| && n.channel[k].origin == Some(j) {
          assert m.channel[k].origin == Some(j);
        }
      }
    }
  }

  /** Takes the head off the channel, when no waiting call depends on it. */
  lemma DiscardIsSane(n: Net)
    requires Sane(n) && n.channel != []
    requires n.channel[0].origin.Some? ==>
               n.channel[0].origin.value >= |n.calls| || !n.calls[n.channel[0].origin.value].Waiting?
    ensures Sane(n.(channel := n.channel[1..]))
  {
    hide IdOf, PacketOk, IsReply;
    var m := n.(channel := n.channel[1..]);
    forall j {:trigger InTable(m, j)} | 0 <= j < |m.calls| && m.calls[j].Waiting? ensures InTable(m, j) {
      assert InTable(n, j);
    }
    forall j {:trigger UnderWay(m, j)} | 0 <= j < |m.calls| && m.calls[j].Waiting? ensures UnderWay(m, j) {
      assert UnderWay(n, j);
      if k :| 0 <= k < |n.channel| && n.channel[k].origin == Some(j) {
        assert m.channel[k - 1].origin == Some(j);
      }
    }
  }

  /** The head is the answer to a call that still waits: the call completes with it. */
  lemma CompleteIsSane(n: Net, i: nat)
    requires Sane(n) && n.channel != [] && n.channel[0].origin == Some(i) && i in n.produced
    requires i < |n.calls| && n.calls[i].Waiting?
    ensures Sane(n.(channel := n.channel[1..], calls := n.calls[i := Completed(AsSeen(n.produced[i]))],
                    pending := n.pending - {IdOf(i + 1)}))
  {
    hide IdOf, PacketOk, IsReply, AsSeen;
    assert InTable(n, i);
    var m := n.(channel := n.channel[1..], calls := n.calls[i := Completed(AsSeen(n.produced[i]))],
                pending := n.pending - {IdOf(i + 1)});
    forall j {:trigger InTable(m, j)} | 0 <= j < |m.calls| && m.calls[j].Waiting? ensures InTable(m, j) {
      assert InTable(n, j);
    }
    forall j {:trigger UnderWay(m, j)} | 0 <= j < |m.calls| && m.calls[j].Waiting? ensures UnderWay(m, j) {
      assert UnderWay(n, j);
      if k :| 0 <= k < |n.channel| && n.channel[k].origin == Some(j) {
        assert m.channel[k - 1].origin == Some(j);
      }
    }
  }

  /** Only the call itself is in the table under its identifier. */
  lemma TableHasOwner(n: Net, i: nat)
    requires Sane(n) && |n.calls| < TWO_32 && i < |n.calls|
    ensures IdOf(i + 1) in n.pending ==> n.pending[IdOf(i + 1)] == i && n.calls[i].Waiting?
    ensures n.calls[i].Waiting? ==> IdOf(i + 1) in n.pending
  {
    hide IdOf;
    if IdOf(i + 1) in n.pending {
      var k := n.pending[IdOf(i + 1)];
      if k < i {
        IdsDiffer(k + 1, i + 1);
      } else if i < k {
        IdsDiffer(i + 1, k + 1);
      }
    }
    if n.calls[i].Waiting? {
      assert InTable(n, i);
    }
  }

  lemma PushIsNotDelivered(n: Net, frame: Bytes)
    requires TableOk(n) && IsPush(frame)
    ensures Delivered(n, frame) == n
  {
    hide Encode, DecodeResponse, BytesField, EventFields, ResponseFields, Framed;
    if ev: Event :| Framed(EventFields(ev)) && frame == Encode(EventFields(ev)) {
      EventIsNotAResponse(ev);
    } else {
      var text: Bytes :| Framed(ResponseFields(Rejection(text))) && frame == Encode(ResponseFields(Rejection(text)));
      ResponseIsRecognised(Rejection(text));
      assert [] !in n.pending;
    }
  }

  lemma ReplyIsDelivered(n: Net, i: nat)
    requires Sane(n) && |n.calls| < TWO_32 && i in n.produced
    ensures var frame := Encode(ResponseFields(n.produced[i]));
            Delivered(n, frame) == if n.calls[i].Waiting? then n.(calls := n.calls[i := Completed(AsSeen(n.produced[i]))],
                                                                  pending := n.pending - {IdOf(i + 1)})
                                   else n
  {
    hide Encode, DecodeResponse, BytesField, ResponseFields, Framed, IdOf;
    var r := n.produced[i];
    assert IsReply(r, IdOf(i + 1));
    var d :| r == Reply(IdOf(i + 1), d);
    ReplyIsRecognised(IdOf(i + 1), d);
    TableHasOwner(n, i);
    hide TableOk, WaitersOk, StagesOk, ChannelOk, CompletedOk, NothingLost;
  }

  lemma ReceiveIsSane(n: Net)
    requires Sane(n) && |n.calls| < TWO_32
    ensures Sane(Do(n, Receive))
  {
    if n.channel != [] {
      var p, m := n.channel[0], n.(channel := n.channel[1..]);
      assert PacketOk(n.produced, p);
      match p.origin
      case None =>
        DiscardIsSane(n);
        PushIsNotDelivered(m, p.frame);
      case Some(i) =>
        hide Delivered, IsReply, IdOf, Encode;
        if n.calls[i].Waiting? {
          CompleteIsSane(n, i);
          DeliveredFromTail(n, p.frame);
          ReplyIsDelivered(n, i);
        } else {
          DiscardIsSane(n);
          ReplyIsDelivered(m, i);
        }
    }
  }

  /** Delivery does not look at the channel. */
  lemma DeliveredFromTail(n: Net, frame: Bytes)
    requires n.channel != []
    ensures Delivered(n.(channel := n.channel[1..]), frame) == Delivered(n, frame).(channel := n.channel[1..])
  {
    hide DecodeResponse, BytesField;
  }

  // ---------- Runs ----------

  lemma CallsOnlyGrow(n: Net, s: Step)
    ensures |n.calls| <= |Do(n, s).calls|
  {
    hide DecodeResponse, BytesField, Framed, Encode, IdOf;
  }

  lemma StepIsSane(n: Net, s: Step)
    requires Sane(n) && |Do(n, s).calls| < TWO_32
    ensures Sane(Do(n, s))
  {
    CallsOnlyGrow(n, s);
    hide Sane, Delivered, Framed, Encode, IdOf;
    match s
    case Invoke => InvokeIsSane(n);
    case Write(i) => WriteIsSane(n, i);
    case WriteFails(i) => WriteFailsIsSane(n, i);
    case GiveUp(i) =>
      if i < |n.calls| && n.calls[i].Waiting? && i !in n.unsent {
        DropIsSane(n, i);
      }
    case Take => TakeIsSane(n);
    case Finish(i, d) => FinishIsSane(n, i, d);
    case Publish(event) => PublishIsSane(n, event);
    case Reject(text) => RejectIsSane(n, text);
    case Receive => ReceiveIsSane(n);
  }

  lemma {:induction false} RunIsSane(steps: seq<Step>)
    requires |Run(steps).calls| < TWO_32
    ensures Sane(Run(steps))
    decreases |steps|
  {
    hide Do;
    if steps != [] {
      hide Sane;
      var before := steps[..|steps| - 1];
      CallsOnlyGrow(Run(before), steps[|steps| - 1]);
      RunIsSane(before);
      StepIsSane(Run(before), steps[|steps| - 1]);
    }
  }

  /** Once a call has ended, no step changes how. */
  lemma EndedStaysEnded(n: Net, s: Step, i: nat)
    requires Sane(n) && i < |n.calls| && !n.calls[i].Waiting?
    ensures i < |Do(n, s).calls| && Do(n, s).calls[i] == n.calls[i]
  {
    hide DecodeResponse, BytesField, Framed, Encode, IdOf, WaitersOk, StagesOk, ProducedOk, ChannelOk, CompletedOk, NothingLost;
  }

  lemma {:induction false} EndedStays(steps: seq<Step>, more: seq<Step>, i: nat)
    requires |Run(steps + more).calls| < TWO_32
    requires i < |Run(steps).calls| && !Run(steps).calls[i].Waiting?
    ensures i < |Run(steps + more).calls| && Run(steps + more).calls[i] == Run(steps).calls[i]
    decreases |more|
  {
    hide Do, Sane;
    if more == [] {
      assert steps + more == steps;
    } else {
      var last := |more| - 1;
      assert (steps + more)[..|steps + more| - 1] == steps + more[..last];
      CallsOnlyGrow(Run(steps + more[..last]), more[last]);
      EndedStays(steps, more[..last], i);
      RunIsSane(steps + more[..last]);
      EndedStaysEnded(Run(steps + more[..last]), more[last], i);
    }
  }

  /** A call completes only with what the server answered to it: under any order of the server's tasks
      and any mixture with events, responses never get to another call. */
  lemma OwnResponseOnly(steps: seq<Step>, i: nat)
    requires |Run(steps).calls| < TWO_32 && i < |Run(steps).calls| && Run(steps).calls[i].Completed?
    ensures i in Run(steps).produced && Run(steps).calls[i].response == AsSeen(Run(steps).produced[i])
    ensures IsReply(Run(steps).produced[i], IdOf(i + 1))
  {
    hide Run, IdOf, IsReply;
    RunIsSane(steps);
  }

  /** No response is lost: when everything has been delivered, nobody waits. */
  lemma NobodyWaitsAtRest(steps: seq<Step>, i: nat)
    requires |Run(steps).calls| < TWO_32 && i < |Run(steps).calls|
    requires var n := Run(steps); n.unsent == {} && n.wire == [] && n.working == {} && n.channel == []
    ensures !Run(steps).calls[i].Waiting?
  {
    hide Run;
    RunIsSane(steps);
    assert Run(steps).calls[i].Waiting? ==> UnderWay(Run(steps), i);
  }

  /** A request that the server cannot decode is answered with code 422 and the decoder's words, but under no identifier,
      so that no call is completed by it: the caller waits on. */
  lemma RejectionReachesNobody(n: Net, text: Bytes)
    requires Sane(n) && Framed(ResponseFields(Rejection(text)))
    ensures var frame := Encode(ResponseFields(Rejection(text)));
            && DecodeResponse(frame) == Done(Some(IpcResponse(422, text, [])))
            && OrEmpty(BytesField(frame, 1)) == Done([])
            && Delivered(n, frame) == n
  {
    hide Encode, DecodeResponse, BytesField, ResponseFields, Framed, Delivered;
    ResponseIsRecognised(Rejection(text));
    PushIsNotDelivered(n, Encode(ResponseFields(Rejection(text))));
  }

  // ---------- From the handler to the caller ----------

  /** What a caller learns of how its request went. */
  predicate Tells(r: IpcResponse, d: Dispatched) {
    match d
    case Fine(payload) => r.code == 0 && r.message == [111, 107] && r.payload == payload
    case Failed(failure, text) =>
      && r.message == text && r.payload == []
      && (r.code == 409 <==> failure == InvalidState || failure == AlreadyRunning)
      && (r.code == 422 <==> failure == ConfigInvalid) && (r.code == 404 <==> failure == NotFound)
      && (r.code == 401 <==> failure == Auth) && (r.code == 504 <==> failure == Timeout)
      && (r.code == 600 <==> failure == Subscription) && (r.code == 601 <==> failure == Core)
      && (r.code == 602 <==> failure == Tun) && (r.code == 603 <==> failure == Route)
      && (r.code == 604 <==> failure == Dns) && (r.code == 605 <==> failure == Proxy)
      && (r.code == 500 <==> failure == Internal) && r.code > 0
    case Panicked(detail) =>
      && r.code == 500 && r.payload == [] && |r.message| == 24 + |detail| && r.message[24..] == detail
      && forall k | 0 <= k < 24 :: r.message[k] as int == "internal handler panic: "[k] as int
  }

  lemma ReplyTells(id: Bytes, d: Dispatched)
    ensures Tells(AsSeen(Reply(id, d)), d)
    ensures Reply(id, d).code == 0 <==> d.Fine?
  {
    if d.Panicked? {
      assert (PANIC_TEXT + d.detail)[24..] == d.detail;
    }
  }

  /** This step is the end of call `i`'s task on the server, with this outcome. */
  ghost predicate Finishes(steps: seq<Step>, k: nat, i: nat, d: Dispatched) {
    && k < |steps| && steps[k] == Finish(i, d) && i in Run(steps[..k]).working
    && Framed(ResponseFields(Reply(IdOf(i + 1), d)))
  }

  /** Whatever the server produced for a call was produced by its task. */
  lemma {:induction false} ProducedByItsTask(steps: seq<Step>, i: nat) returns (k: nat, d: Dispatched)
    requires i in Run(steps).produced && |Run(steps).calls| < TWO_32
    ensures Finishes(steps, k, i, d) && Run(steps).produced[i] == Reply(IdOf(i + 1), d)
    decreases |steps|
  {
    hide IdOf, Reply, Framed, Encode, DecodeResponse, BytesField, Sane;
    var n := |steps| - 1;
    var front, last := steps[..n], steps[n];
    if last.Finish? && last.call == i && i in Run(front).working && Framed(ResponseFields(Reply(IdOf(i + 1), last.outcome))) {
      k, d := n, last.outcome;
    } else {
      ProducedStays(Run(front), last, i);
      CallsOnlyGrow(Run(front), last);
      k, d := ProducedByItsTask(front, i);
      assert front[..k] == steps[..k];
    }
  }

  lemma ProducedStays(n: Net, s: Step, i: nat)
    requires !(s.Finish? && s.call == i && i in n.working && Framed(ResponseFields(Reply(IdOf(i + 1), s.outcome))))
    ensures i in Do(n, s).produced <==> i in n.produced
    ensures i in n.produced ==> Do(n, s).produced[i] == n.produced[i]
  {
    hide IdOf, Framed, Encode, DecodeResponse, BytesField;
  }

  /** A completed call learns how its own request went on the server: code 0, "ok" and the handler's payload exactly if
      it succeeded; the failure's class and text, and no payload, if it failed; 500 if the handler panicked. */
  lemma OutcomeReachesCaller(steps: seq<Step>, i: nat) returns (k: nat, d: Dispatched)
    requires |Run(steps).calls| < TWO_32 && i < |Run(steps).calls| && Run(steps).calls[i].Completed?
    ensures Finishes(steps, k, i, d) && Tells(Run(steps).calls[i].response, d)
    ensures Run(steps).calls[i].response.code == 0 <==> d.Fine?
  {
    hide Run, IdOf, IsReply, Tells, Reply;
    OwnResponseOnly(steps, i);
    k, d := ProducedByItsTask(steps, i);
    ReplyTells(IdOf(i + 1), d);
  }

  /** And the first frame in the pipe, if it answers a call that waits, completes it with that outcome. */
  lemma OutcomeIsDelivered(steps: seq<Step>, i: nat) returns (k: nat, d: Dispatched)
    requires var n := Run(steps);
             && |n.calls| < TWO_32 && n.channel != [] && n.channel[0].origin == Some(i)
             && i < |n.calls| && n.calls[i].Waiting?
    ensures var r := Run(steps + [Receive]);
            && Finishes(steps, k, i, d) && i < |r.calls| && r.calls[i].Completed? && Tells(r.calls[i].response, d)
  {
    hide Run, IdOf, IsReply, Tells, Reply, Encode, ResponseFields, Sane;
    RunIsSane(steps);
    var n := Run(steps);
    FirstAnswers(n, i);
    OneStepMore(steps, Receive);
    k, d := ProducedByItsTask(steps, i);
    ReplyTells(IdOf(i + 1), d);
    ReplyIsDelivered(n, i);
    DeliveredFromTail(n, n.channel[0].frame);
    hide Delivered, Do;
    assert Do(n, Receive) == Delivered(n.(channel := n.channel[1..]), n.channel[0].frame) by { ReceiveDelivers(n); }
  }

  lemma ReceiveDelivers(n: Net)
    requires n.channel != []
    ensures Do(n, Receive) == Delivered(n.(channel := n.channel[1..]), n.channel[0].frame)
  {
  }

  lemma FirstAnswers(n: Net, i: nat)
    requires Sane(n) && n.channel != [] && n.channel[0].origin == Some(i)
    ensures i in n.produced && n.channel[0].frame == Encode(ResponseFields(n.produced[i]))
  {
    hide Encode, ResponseFields;
    assert PacketOk(n.produced, n.channel[0]);
  }

  lemma OneStepMore(steps: seq<Step>, s: Step)
    ensures Run(steps + [s]) == Do(Run(steps), s)
  {
    hide Do;
    assert (steps + [s])[..|steps|] == steps;
  }

  lemma TakenAndFinished(n: Net, i: nat, d: Dispatched)
    requires n.wire != [] && n.wire[0] == i && n.channel == [] && Framed(ResponseFields(Reply(IdOf(i + 1), d)))
    ensures var taken := Do(n, Take);
            var done := Do(taken, Finish(i, d));
            && taken.calls == done.calls == n.calls && done.wire == n.wire[1..] && i !in done.working
            && done.channel == [Packet(Encode(ResponseFields(Reply(IdOf(i + 1), d))), Some(i))]
            && i in done.produced && done.produced[i] == Reply(IdOf(i + 1), d)
  {
    hide IdOf, Reply, Framed, Encode, ResponseFields;
  }

  lemma DeliveredLeavesRest(n: Net, frame: Bytes)
    ensures Delivered(n, frame).wire == n.wire && Delivered(n, frame).working == n.working
  {
    hide DecodeResponse, BytesField;
  }

  /** Nothing stands in the way: the first request in the pipe, once its task has finished and the pipe is drained, gets
      its answer. */
  lemma ServedInTurn(n: Net, i: nat, d: Dispatched)
    requires Sane(n) && |n.calls| < TWO_32 && n.wire != [] && n.wire[0] == i && n.channel == []
    requires i < |n.calls| && n.calls[i].Waiting? && Framed(ResponseFields(Reply(IdOf(i + 1), d)))
    ensures var r := Do(Do(Do(n, Take), Finish(i, d)), Receive);
            && i < |r.calls| && r.calls[i].Completed? && Tells(r.calls[i].response, d)
            && r.wire == n.wire[1..] && i !in r.working
  {
    hide Do, Sane, IdOf, Reply, Tells, Framed, Delivered, Encode, ResponseFields;
    TakenAndFinished(n, i, d);
    StepIsSane(n, Take);
    var done := Do(Do(n, Take), Finish(i, d));
    StepIsSane(Do(n, Take), Finish(i, d));
    ReplyTells(IdOf(i + 1), d);
    ReceiveDelivers(done);
    ReplyIsDelivered(done, i);
    DeliveredFromTail(done, done.channel[0].frame);
    DeliveredLeavesRest(done, done.channel[0].frame);
  }

  /** A published event goes into the pipe behind whatever is there, and is read as that event and no response; so is the
      answer to a request that could not be decoded. */
  lemma PushedArrives(n: Net, event: Event, text: Bytes)
    ensures Framed(EventFields(event)) ==>
              var c := Do(n, Publish(event)).channel;
              && |c| == |n.channel| + 1 && c[..|n.channel|] == n.channel
              && DecodeResponse(c[|n.channel|].frame) == Done(None) && DecodeEvent(c[|n.channel|].frame) == Done(event)
    ensures Framed(ResponseFields(Rejection(text))) ==>
              var c := Do(n, Reject(text)).channel;
              && |c| == |n.channel| + 1 && c[..|n.channel|] == n.channel
              && DecodeResponse(c[|n.channel|].frame) == Done(Some(IpcResponse(422, text, [])))
  {
    hide Encode, DecodeResponse, DecodeEvent, BytesField, ResponseFields, EventFields, Framed;
    if Framed(EventFields(event)) {
      EventIsNotAResponse(event);
    }
    if Framed(ResponseFields(Rejection(text))) {
      ResponseIsRecognised(Rejection(text));
    }
  }
}
