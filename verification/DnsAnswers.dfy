/** What reading a response means: the records that were written, no more than were announced,
    and nothing invented when the message is cut short. */
module DnsAnswers {
  import opened Prelude
  import opened Slices
  import opened Address
  import opened DnsWire
  import opened DnsNames

  // ---------- Writing, as section 4.1 of RFC 1035 has it ----------

  /** A compression pointer, and the labels that it is meant to stand for. */
  datatype Pointer = Pointer(offset: nat, names: seq<Label>)

  /** Who a record is about: labels, then the end or a pointer. */
  datatype Owner = Owner(labels: seq<Label>, suffix: Option<Pointer>)

  datatype Rr = Rr(owner: Owner, qtype: nat, qclass: nat, ttl: nat, rdata: seq<Byte>)

  predicate OwnerFits(o: Owner) {
    (forall i | 0 <= i < |o.labels| :: Readable(o.labels[i])) && (o.suffix.Some? ==> o.suffix.value.offset < 0x4000)
  }

  predicate Fits(r: Rr) {
    OwnerFits(r.owner) && r.qtype < 0x10000 && r.qclass < 0x10000 && r.ttl < 0x1_0000_0000 && |r.rdata| < 0x10000
  }

  predicate AllFit(rs: seq<Rr>) {
    forall i | 0 <= i < |rs| :: Fits(rs[i])
  }

  function PutEnd(suffix: Option<Pointer>): seq<Byte>
    requires suffix.Some? ==> suffix.value.offset < 0x4000
  {
    match suffix
    case None => [0]
    case Some(p) => [0xC0 + p.offset / 256, p.offset % 256]
  }

  function PutOwner(o: Owner): seq<Byte>
    requires OwnerFits(o)
  {
    PutLabels(o.labels) + PutEnd(o.suffix)
  }

  function OwnerName(o: Owner): seq<Label> {
    o.labels + match o.suffix case None => [] case Some(p) => p.names
  }

  /** The ten fixed octets of a record. */
  function PutFixed(r: Rr): (b: seq<Byte>)
    ensures |b| == 10
  {
    U16(r.qtype) + U16(r.qclass) + U32(r.ttl) + U16(|r.rdata|)
  }

  function PutRr(r: Rr): seq<Byte>
    requires Fits(r)
  {
    PutOwner(r.owner) + PutFixed(r) + r.rdata
  }

  function PutRrs(rs: seq<Rr>): seq<Byte>
    requires AllFit(rs)
  {
    if rs == [] then [] else PutRr(rs[0]) + PutRrs(rs[1..])
  }

  /** What the service should make of a record. */
  function AsRecord(r: Rr): Record {
    Record(OwnerName(r.owner), r.qtype, r.ttl, RecordIp(r.qtype, r.rdata))
  }

  function AsRecords(rs: seq<Rr>): seq<Record> {
    if rs == [] then [] else [AsRecord(rs[0])] + AsRecords(rs[1..])
  }

  /** A whole response: header with the QR bit, the question, the answers, and anything after them. */
  function Response(id: nat, flags: nat, q: seq<Label>, qtype: nat, qclass: nat, rs: seq<Rr>,
                    ns: nat, ar: nat, tail: seq<Byte>): seq<Byte>
    requires AllFit(rs)
  {
    (U16(id) + U16(flags) + U16(1) + U16(|rs|) + U16(ns) + U16(ar))
    + (PutLabels(q) + ([0] + U16(qtype) + U16(qclass)))
    + (PutRrs(rs) + tail)
  }

  // ---------- Where a pointer may point ----------

  /** The name at an offset denotes these labels, through at most this many pointers. */
  ghost predicate DenotesWithin(buf: seq<Byte>, at: nat, labels: seq<Label>, limit: nat) {
    exists jumps: nat :: jumps <= limit && Denotes(buf, at, labels, jumps)
  }

  /** The owner's pointer, if it has one, points to the name it is meant to, and reading that name takes at most
      fifteen pointers more. */
  ghost predicate Refers(buf: seq<Byte>, o: Owner) {
    o.suffix.Some? ==> DenotesWithin(buf, o.suffix.value.offset, o.suffix.value.names, 15)
  }

  lemma TargetReads(buf: seq<Byte>, at: nat, labels: seq<Label>)
    ensures Expand(buf, at, 1) == Some(labels) <==> DenotesWithin(buf, at, labels, 15)
  {
    if Expand(buf, at, 1) == Some(labels) {
      var n := ExpandDenotes(buf, at, 1);
      assert n <= 15 && Denotes(buf, at, labels, n);
    }
    if DenotesWithin(buf, at, labels, 15) {
      var n: nat :| n <= 15 && Denotes(buf, at, labels, n);
      DenotesExpands(buf, at, labels, n, 1);
    }
  }

  lemma PutNothing()
    ensures PutLabels([]) == []
  {
  }

  lemma {:induction false} PutDenotes(buf: seq<Byte>, at: nat, labels: seq<Label>, rest: seq<Label>, jumps: nat)
    requires Has(buf, at, PutLabels(labels)) && Denotes(buf, at + |PutLabels(labels)|, rest, jumps)
    requires forall i | 0 <= i < |labels| :: Readable(labels[i])
    ensures Denotes(buf, at, labels + rest, jumps)
    decreases |labels|
  {
    hide PutLabels, Has, Readable, Denotes;
    if labels == [] {
      PutNothing();
      assert labels + rest == rest;
    } else {
      var part := labels[0];
      PutLabelsFromFront(labels);
      HasParts(buf, at, PutLabel(part), PutLabels(labels[1..]));
      PutDenotes(buf, at + |PutLabel(part)|, labels[1..], rest, jumps);
      LabelDenotes(buf, at, part, labels[1..] + rest, jumps);
      assert [part] + (labels[1..] + rest) == labels + rest;
    }
  }

  lemma LabelDenotes(buf: seq<Byte>, at: nat, part: Label, rest: seq<Label>, jumps: nat)
    requires Readable(part) && Has(buf, at, PutLabel(part)) && Denotes(buf, at + |PutLabel(part)|, rest, jumps)
    ensures Denotes(buf, at, [part] + rest, jumps)
  {
    LabelParts(buf, at, part);
    assert buf[at] == buf[at..at + 1][0] == |part|;
    assert ([part] + rest)[1..] == rest;
  }

  lemma EndDenotes(buf: seq<Byte>, at: nat, suffix: Option<Pointer>, limit: nat) returns (jumps: nat)
    requires suffix.Some? ==> suffix.value.offset < 0x4000
    requires Has(buf, at, PutEnd(suffix))
    requires suffix.Some? ==> DenotesWithin(buf, suffix.value.offset, suffix.value.names, limit)
    ensures jumps <= limit + 1 && (suffix.None? ==> jumps == 0)
    ensures Denotes(buf, at, match suffix case None => [] case Some(p) => p.names, jumps)
  {
    if suffix.None? {
      assert buf[at] == buf[at..at + 1][0];
      jumps := 0;
    } else {
      var p := suffix.value;
      assert buf[at] == buf[at..at + 2][0] && buf[at + 1] == buf[at..at + 2][1];
      assert IsPointer(buf[at]) && Target(buf, at) == p.offset;
      jumps :| jumps <= limit && Denotes(buf, p.offset, p.names, jumps);
      jumps := jumps + 1;
    }
  }

  /** Wherever a name is written in the message, in the question or as the owner of any record, each of its labels
      is a target for pointers: from there on it denotes the rest of the name, through one pointer more than its
      own pointer's target if it ends in one. */
  lemma WrittenNamesAreTargets(buf: seq<Byte>, at: nat, o: Owner, k: nat, limit: nat)
    requires OwnerFits(o) && Has(buf, at, PutOwner(o)) && k <= |o.labels|
    requires o.suffix.Some? ==> DenotesWithin(buf, o.suffix.value.offset, o.suffix.value.names, limit)
    ensures DenotesWithin(buf, at + |PutLabels(o.labels[..k])|, OwnerName(o)[k..], if o.suffix.None? then 0 else limit + 1)
  {
    hide PutLabels, PutEnd, Has, Denotes;
    var a, b := o.labels[..k], o.labels[k..];
    assert o.labels == a + b;
    PutLabelsAppend(a, b);
    HasParts(buf, at, PutLabels(o.labels), PutEnd(o.suffix));
    HasParts(buf, at, PutLabels(a), PutLabels(b));
    var jumps := EndDenotes(buf, at + |PutLabels(o.labels)|, o.suffix, limit);
    var rest := match o.suffix case None => [] case Some(p) => p.names;
    PutDenotes(buf, at + |PutLabels(a)|, b, rest, jumps);
    assert OwnerName(o)[k..] == b + rest;
  }

  // ---------- Reading one record ----------

  lemma U16ReadsBack(buf: seq<Byte>, at: nat, n: nat)
    requires n < 0x10000 && Has(buf, at, U16(n))
    ensures ReadU16(buf, at) == n
  {
    assert buf[at] == buf[at..at + 2][0] && buf[at + 1] == buf[at..at + 2][1];
  }

  lemma U32ReadsBack(buf: seq<Byte>, at: nat, n: nat)
    requires n < 0x1_0000_0000 && Has(buf, at, U32(n))
    ensures ReadU32(buf, at) == n
  {
    HasParts(buf, at, U16(n / 65536), U16(n % 65536));
    hide U16, ReadU16, Has;
    U16ReadsBack(buf, at, n / 65536);
    U16ReadsBack(buf, at + 2, n % 65536);
  }

  lemma FixedReadsBack(buf: seq<Byte>, at: nat, r: Rr)
    requires r.qtype < 0x10000 && r.qclass < 0x10000 && r.ttl < 0x1_0000_0000 && |r.rdata| < 0x10000
    requires Has(buf, at, PutFixed(r))
    ensures at + 10 <= |buf| && ReadU16(buf, at) == r.qtype && ReadU32(buf, at + 4) == r.ttl
    ensures ReadU16(buf, at + 8) == |r.rdata|
  {
    assert at + 10 <= |buf|;
    hide U16, U32, ReadU16, ReadU32, Has;
    HasParts(buf, at, U16(r.qtype) + U16(r.qclass) + U32(r.ttl), U16(|r.rdata|));
    HasParts(buf, at, U16(r.qtype) + U16(r.qclass), U32(r.ttl));
    HasParts(buf, at, U16(r.qtype), U16(r.qclass));
    U16ReadsBack(buf, at, r.qtype);
    U32ReadsBack(buf, at + 4, r.ttl);
    U16ReadsBack(buf, at + 8, |r.rdata|);
  }

  /** The question stands at offset 12. */
  ghost predicate HasQuestion(buf: seq<Byte>, q: seq<Label>) {
    && Has(buf, 12, PutLabels(q) + [0])
    && forall i | 0 <= i < |q| :: Readable(q[i])
  }

  /** The question's name reads as its labels. */
  lemma QuestionNameReads(buf: seq<Byte>, q: seq<Label>)
    requires HasQuestion(buf, q)
    ensures ReadNameSpec(buf, 12) == Some((q, 12 + |PutLabels(q)| + 1))
  {
    hide PutLabels, Expand, NextAfter;
    HasParts(buf, 12, PutLabels(q), [0]);
    ExpandOfPut(buf, 12, q, 0);
    var end := 12 + |PutLabels(q)|;
    assert buf[end] == buf[end..end + 1][0];
    EndOfName(buf, end, 0);
    assert q + [] == q;
  }

  lemma EndReads(buf: seq<Byte>, o: Owner, end: nat)
    requires OwnerFits(o) && Has(buf, end, PutEnd(o.suffix))
    ensures Expand(buf, end, 0) == Some(match o.suffix case None => [] case Some(p) => p.names) <==> Refers(buf, o)
    ensures NextAfter(buf, end) == Some(end + |PutEnd(o.suffix)|)
  {
    match o.suffix
    case None =>
      assert buf[end] == buf[end..end + 1][0];
    case Some(p) =>
      assert buf[end] == buf[end..end + 2][0] && buf[end + 1] == buf[end..end + 2][1];
      assert IsPointer(buf[end]) && Target(buf, end) == p.offset;
      TargetReads(buf, p.offset, p.names);
  }

  /** An owner name reads as the labels it was written for exactly when its pointer points to them; where it ends
      does not depend on that. */
  lemma OwnerReads(buf: seq<Byte>, o: Owner, at: nat)
    requires OwnerFits(o) && Has(buf, at, PutOwner(o))
    ensures Expand(buf, at, 0) == Some(OwnerName(o)) <==> Refers(buf, o)
    ensures NextAfter(buf, at) == Some(at + |PutOwner(o)|)
  {
    hide PutLabels, PutEnd, Expand, NextAfter, Has, Refers;
    HasParts(buf, at, PutLabels(o.labels), PutEnd(o.suffix));
    ExpandOfPut(buf, at, o.labels, 0);
    var end := at + |PutLabels(o.labels)|;
    EndReads(buf, o, end);
    if Expand(buf, end, 0).Some? {
      SameFront(o.labels, Expand(buf, end, 0).value, match o.suffix case None => [] case Some(p) => p.names);
    }
  }

  lemma SameFront<T>(front: seq<T>, a: seq<T>, b: seq<T>)
    ensures front + a == front + b <==> a == b
  {
    assert (front + a)[|front|..] == a && (front + b)[|front|..] == b;
  }

  /** The fixed octets and the data stand where the owner name ends. */
  ghost predicate BodyStands(buf: seq<Byte>, next: nat, r: Rr) {
    var start := next + 10;
    && start + |r.rdata| <= |buf| && buf[start..start + |r.rdata|] == r.rdata
    && ReadU16(buf, next) == r.qtype && ReadU32(buf, next + 4) == r.ttl && ReadU16(buf, next + 8) == |r.rdata|
  }

  lemma RecordStands(buf: seq<Byte>, r: Rr, at: nat)
    requires Fits(r) && Has(buf, at, PutRr(r))
    ensures Has(buf, at, PutOwner(r.owner)) && BodyStands(buf, at + |PutOwner(r.owner)|, r)
  {
    var owner, fixed := PutOwner(r.owner), PutFixed(r);
    HasParts(buf, at, owner + fixed, r.rdata);
    HasParts(buf, at, owner, fixed);
    FixedReadsBack(buf, at + |owner|, r);
  }

  lemma ItemOfBody(buf: seq<Byte>, at: nat, next: nat, r: Rr)
    requires NextAfter(buf, at) == Some(next) && BodyStands(buf, next, r)
    ensures ReadItem(buf, at) ==
            match Expand(buf, at, 0)
            case None => BadName
            case Some(name) => Item.Item(Record(name, r.qtype, r.ttl, RecordIp(r.qtype, r.rdata)), next + 10 + |r.rdata|)
  {
    hide ReadU16, ReadU32, Expand, NextAfter, RecordIp;
  }

  /** A record whose pointer is right reads as itself; otherwise its name is misread or the message refused. */
  lemma RecordReads(buf: seq<Byte>, r: Rr, at: nat)
    requires Fits(r) && Has(buf, at, PutRr(r))
    ensures Refers(buf, r.owner) ==> ReadItem(buf, at) == Item.Item(AsRecord(r), at + |PutRr(r)|)
    ensures !Refers(buf, r.owner) ==>
              ReadItem(buf, at).BadName? || (ReadItem(buf, at).Item? && ReadItem(buf, at).record != AsRecord(r))
  {
    hide Has, BodyStands, Expand, NextAfter, PutOwner, RecordIp, OwnerFits, OwnerName, Refers, ReadItem;
    RecordStands(buf, r, at);
    OwnerReads(buf, r.owner, at);
    ItemOfBody(buf, at, at + |PutOwner(r.owner)|, r);
  }

  ghost predicate AllRefer(buf: seq<Byte>, rs: seq<Rr>) {
    forall i | 0 <= i < |rs| :: Refers(buf, rs[i].owner)
  }

  lemma AllReferFromHead(buf: seq<Byte>, rs: seq<Rr>)
    requires rs != []
    ensures AllRefer(buf, rs) <==> Refers(buf, rs[0].owner) && AllRefer(buf, rs[1..])
  {
    hide Refers;
    assert forall i | 0 < i < |rs| :: rs[i] == rs[1..][i - 1];
  }

  lemma {:induction false} RecordsRead(buf: seq<Byte>, rs: seq<Rr>, at: nat)
    requires AllFit(rs) && Has(buf, at, PutRrs(rs))
    ensures ReadRecords(buf, at, |rs|) == Some(AsRecords(rs)) <==> AllRefer(buf, rs)
    decreases |rs|
  {
    hide Fits, Has, ReadItem, PutRr, AsRecord, Refers;
    if rs != [] {
      AllReferFromHead(buf, rs);
      HasParts(buf, at, PutRr(rs[0]), PutRrs(rs[1..]));
      RecordReads(buf, rs[0], at);
      if Refers(buf, rs[0].owner) {
        RecordsRead(buf, rs[1..], at + |PutRr(rs[0])|);
        var item := ReadItem(buf, at);
        if ReadRecords(buf, item.next, |rs| - 1).Some? {
          SameFront([item.record], ReadRecords(buf, item.next, |rs| - 1).value, AsRecords(rs[1..]));
        }
      } else {
        assert AsRecords(rs)[0] == AsRecord(rs[0]);
      }
    }
  }

  lemma OffsetOfFirst(q: seq<Label>, rs: seq<Rr>)
    requires AllFit(rs)
    ensures RecordOffset(q, rs, 0) == 12 + |PutLabels(q)| + 5
  {
    assert rs[..0] == [];
  }

  lemma ResponseParts(id: nat, flags: nat, q: seq<Label>, qtype: nat, qclass: nat, rs: seq<Rr>,
                      ns: nat, ar: nat, tail: seq<Byte>)
    requires AllFit(rs)
    ensures var buf := Response(id, flags, q, qtype, qclass, rs, ns, ar, tail);
            && Has(buf, 0, U16(id) + U16(flags) + U16(1) + U16(|rs|) + U16(ns) + U16(ar))
            && Has(buf, 12, PutLabels(q) + ([0] + U16(qtype) + U16(qclass)))
            && Has(buf, 12 + |PutLabels(q)| + 5, PutRrs(rs))
            && Has(buf, RecordOffset(q, rs, 0), PutRrs(rs))
  {
    hide AllFit, PutLabels, U16, Has;
    var buf := Response(id, flags, q, qtype, qclass, rs, ns, ar, tail);
    var header := U16(id) + U16(flags) + U16(1) + U16(|rs|) + U16(ns) + U16(ar);
    var question := PutLabels(q) + ([0] + U16(qtype) + U16(qclass));
    OffsetOfFirst(q, rs);
    hide PutRrs, RecordOffset;
    HasWhole(buf);
    HasParts(buf, 0, header + question, PutRrs(rs) + tail);
    HasParts(buf, 0, header, question);
    HasParts(buf, 12 + |question|, PutRrs(rs), tail);
  }

  lemma HeaderReads(buf: seq<Byte>, id: nat, flags: nat, an: nat, ns: nat, ar: nat)
    requires 0x8000 <= flags < 0x10000 && an < 0x10000
    requires Has(buf, 0, U16(id) + U16(flags) + U16(1) + U16(an) + U16(ns) + U16(ar))
    ensures |buf| >= 12 && buf[2] >= 0x80 && ReadU16(buf, 4) == 1 && ReadU16(buf, 6) == an
  {
    var h := U16(id) + U16(flags) + U16(1) + U16(an) + U16(ns) + U16(ar);
    assert forall i | 0 <= i < 12 :: buf[i] == buf[0..12][i] == h[i];
  }

  lemma QuestionReads(buf: seq<Byte>, q: seq<Label>, qtype: nat, qclass: nat)
    requires Has(buf, 12, PutLabels(q) + ([0] + U16(qtype) + U16(qclass)))
    requires forall i | 0 <= i < |q| :: Readable(q[i])
    ensures HasQuestion(buf, q)
    ensures SkipQuestions(buf, 12, 1) == Some(12 + |PutLabels(q)| + 5)
  {
    var p, rest := PutLabels(q), U16(qtype) + U16(qclass);
    assert p + ([0] + U16(qtype) + U16(qclass)) == (p + [0]) + rest;
    hide PutLabels, Expand, NextAfter, U16, Has;
    HasParts(buf, 12, p + [0], rest);
    QuestionNameReads(buf, q);
  }

  /** A response is read as exactly its answers if and only if every pointer in an owner name points, anywhere in
      the message, to the name it is meant to, within the limit on jumps. */
  lemma ResponseRoundTrip(id: nat, flags: nat, q: seq<Label>, qtype: nat, qclass: nat, rs: seq<Rr>,
                          ns: nat, ar: nat, tail: seq<Byte>)
    requires 0x8000 <= flags < 0x10000 && |rs| < 0x10000
    requires forall i | 0 <= i < |q| :: Readable(q[i])
    requires AllFit(rs)
    ensures var buf := Response(id, flags, q, qtype, qclass, rs, ns, ar, tail);
            ResponseSpec(buf) == Some(AsRecords(rs)) <==> AllRefer(buf, rs)
  {
    hide AllFit, PutLabels, PutRrs, Readable, AsRecords, AllRefer, ReadRecords, SkipQuestions, Has, U16, ReadU16,
         HasQuestion, Response;
    var buf := Response(id, flags, q, qtype, qclass, rs, ns, ar, tail);
    ResponseParts(id, flags, q, qtype, qclass, rs, ns, ar, tail);
    HeaderReads(buf, id, flags, |rs|, ns, ar);
    QuestionReads(buf, q, qtype, qclass);
    RecordsRead(buf, rs, 12 + |PutLabels(q)| + 5);
  }

  // ---------- Compression as servers do it ----------

  /** Where a pointer leads: to a label of the question, or of the owner of an earlier record. */
  datatype Place = InQuestion(k: nat) | InOwner(i: nat, k: nat)

  /** Where the `i`th record is written. */
  function RecordOffset(q: seq<Label>, rs: seq<Rr>, i: nat): nat
    requires AllFit(rs) && i <= |rs|
  {
    12 + |PutLabels(q)| + 5 + |PutRrs(rs[..i])|
  }

  /** Offset and labels are those of this place. */
  predicate PointsTo(q: seq<Label>, rs: seq<Rr>, p: Pointer, place: Place)
    requires AllFit(rs)
  {
    match place
    case InQuestion(k) => k <= |q| && p == Pointer(12 + |PutLabels(q[..k])|, q[k..])
    case InOwner(i, k) =>
      && i < |rs| && k <= |rs[i].owner.labels|
      && p == Pointer(RecordOffset(q, rs, i) + |PutLabels(rs[i].owner.labels[..k])|, OwnerName(rs[i].owner)[k..])
  }

  /** How many pointers a reader of the `i`th owner follows. */
  function Depth(rs: seq<Rr>, places: seq<Place>, i: nat): nat
    requires i < |rs| == |places|
    requires forall j | 0 <= j < |rs| && places[j].InOwner? :: places[j].i < j
  {
    if rs[i].owner.suffix.None? then 0
    else match places[i] case InQuestion(_) => 1 case InOwner(j, _) => 1 + Depth(rs, places, j)
  }

  /** Every pointer leads to the question or to an earlier record, in chains of at most sixteen. */
  ghost predicate Compressed(q: seq<Label>, rs: seq<Rr>, places: seq<Place>)
    requires AllFit(rs)
  {
    && |places| == |rs|
    && (forall j | 0 <= j < |rs| && places[j].InOwner? :: places[j].i < j)
    && (forall j | 0 <= j < |rs| && rs[j].owner.suffix.Some? :: PointsTo(q, rs, rs[j].owner.suffix.value, places[j]))
    && forall j | 0 <= j < |rs| :: Depth(rs, places, j) <= 16
  }

  lemma {:induction false} PutRrsAppend(a: seq<Rr>, b: seq<Rr>)
    requires AllFit(a) && AllFit(b)
    ensures AllFit(a + b) && PutRrs(a + b) == PutRrs(a) + PutRrs(b)
    decreases |a|
  {
    hide PutRr, Fits;
    if a == [] {
      assert a + b == b;
    } else {
      assert (a + b)[1..] == a[1..] + b;
      PutRrsAppend(a[1..], b);
    }
  }

  lemma PutRrsFirst(rs: seq<Rr>)
    requires AllFit(rs) && rs != []
    ensures PutRrs(rs) == PutRr(rs[0]) + PutRrs(rs[1..])
  {
    hide PutRr, Fits;
  }

  lemma OwnerStands(buf: seq<Byte>, q: seq<Label>, rs: seq<Rr>, i: nat)
    requires AllFit(rs) && i < |rs| && Has(buf, RecordOffset(q, rs, 0), PutRrs(rs))
    ensures Has(buf, RecordOffset(q, rs, i), PutOwner(rs[i].owner))
  {
    hide PutLabels, PutOwner, Fits, Has, PutRrs, PutRr;
    var a, b := rs[..i], rs[i..];
    assert rs == a + b && b[0] == rs[i];
    PutRrsAppend(a, b);
    PutRrsFirst(b);
    OffsetOfFirst(q, rs);
    var start := RecordOffset(q, rs, 0);
    HasParts(buf, start, PutRrs(a), PutRrs(b));
    HasParts(buf, start + |PutRrs(a)|, PutRr(rs[i]), PutRrs(b[1..]));
    RecordStands(buf, rs[i], start + |PutRrs(a)|);
  }

  lemma {:induction false} PointersDenote(buf: seq<Byte>, q: seq<Label>, rs: seq<Rr>, places: seq<Place>, i: nat)
    requires AllFit(rs) && Compressed(q, rs, places) && i < |rs|
    requires HasQuestion(buf, q) && Has(buf, RecordOffset(q, rs, 0), PutRrs(rs))
    ensures rs[i].owner.suffix.Some? ==>
              var p := rs[i].owner.suffix.value; DenotesWithin(buf, p.offset, p.names, Depth(rs, places, i) - 1)
    decreases i
  {
    hide PutLabels, PutRrs, Has, HasQuestion, DenotesWithin, RecordOffset, PutOwner;
    if rs[i].owner.suffix.Some? {
      assert PointsTo(q, rs, rs[i].owner.suffix.value, places[i]);
      match places[i]
      case InQuestion(k) => QuestionIsATarget(buf, q, k);
      case InOwner(j, k) =>
        assert Fits(rs[j]);
        OwnerStands(buf, q, rs, j);
        PointersDenote(buf, q, rs, places, j);
        var d := Depth(rs, places, j);
        WrittenNamesAreTargets(buf, RecordOffset(q, rs, j), rs[j].owner, k, if d > 0 then d - 1 else 0);
    }
  }

  lemma QuestionIsATarget(buf: seq<Byte>, q: seq<Label>, k: nat)
    requires HasQuestion(buf, q) && k <= |q|
    ensures DenotesWithin(buf, 12 + |PutLabels(q[..k])|, q[k..], 0)
  {
    hide PutLabels, Has;
    var o := Owner(q, None);
    assert q + [] == q;
    WrittenNamesAreTargets(buf, 12, o, k, 0);
  }

  lemma WithinMore(buf: seq<Byte>, at: nat, labels: seq<Label>, limit: nat, more: nat)
    requires DenotesWithin(buf, at, labels, limit) && limit <= more
    ensures DenotesWithin(buf, at, labels, more)
  {
    var jumps: nat :| jumps <= limit && Denotes(buf, at, labels, jumps);
    assert jumps <= more && Denotes(buf, at, labels, jumps);
  }

  /** So every response compressed into its question and its earlier owner names, in chains of at most sixteen
      pointers, is read as exactly its answers. */
  lemma CompressedResponseReads(id: nat, flags: nat, q: seq<Label>, qtype: nat, qclass: nat, rs: seq<Rr>,
                                places: seq<Place>, ns: nat, ar: nat, tail: seq<Byte>)
    requires 0x8000 <= flags < 0x10000 && |rs| < 0x10000
    requires forall i | 0 <= i < |q| :: Readable(q[i])
    requires AllFit(rs) && Compressed(q, rs, places)
    ensures ResponseSpec(Response(id, flags, q, qtype, qclass, rs, ns, ar, tail)) == Some(AsRecords(rs))
  {
    hide AllFit, PutLabels, PutRrs, Readable, AsRecords, Compressed, ResponseSpec, Has, HasQuestion, DenotesWithin, U16;
    var buf := Response(id, flags, q, qtype, qclass, rs, ns, ar, tail);
    ResponseParts(id, flags, q, qtype, qclass, rs, ns, ar, tail);
    QuestionReads(buf, q, qtype, qclass);
    assert AllRefer(buf, rs) by {
      forall i | 0 <= i < |rs| ensures Refers(buf, rs[i].owner) {
        PointersRefer(buf, q, rs, places, i);
      }
    }
    ResponseRoundTrip(id, flags, q, qtype, qclass, rs, ns, ar, tail);
  }

  lemma PointersRefer(buf: seq<Byte>, q: seq<Label>, rs: seq<Rr>, places: seq<Place>, i: nat)
    requires AllFit(rs) && Compressed(q, rs, places) && i < |rs|
    requires HasQuestion(buf, q) && Has(buf, RecordOffset(q, rs, 0), PutRrs(rs))
    ensures Refers(buf, rs[i].owner)
  {
    hide PutLabels, PutRrs, Has, HasQuestion, DenotesWithin, RecordOffset, PointsTo;
    PointersDenote(buf, q, rs, places, i);
    if rs[i].owner.suffix.Some? {
      var p := rs[i].owner.suffix.value;
      assert Depth(rs, places, i) <= 16;
      WithinMore(buf, p.offset, p.names, Depth(rs, places, i) - 1, 15);
    }
  }

  // ---------- Addresses ----------

  /** What a server answers about a name: an address of either family, or a record of another kind. */
  datatype Answer =
    | A(four: FourOctets)
    | Aaaa(sixteen: SixteenOctets)
    | Other(qtype: nat, qclass: nat, data: seq<Byte>)

  datatype Answered = Answered(owner: Owner, ttl: nat, answer: Answer)

  /** Not an address: another type, or a length that no address of that type has. */
  predicate NoAddress(a: Answer) {
    a.Other? ==> !(a.qtype == 1 && |a.data| == 4) && !(a.qtype == 28 && |a.data| == 16)
  }

  /** An address record as sections 3.4.1 of RFC 1035 and 2.2 of RFC 3596 have it. */
  function AsRr(a: Answered): Rr {
    match a.answer
    case A(o) => Rr(a.owner, 1, 1, a.ttl, [o[0], o[1], o[2], o[3]])
    case Aaaa(o) => Rr(a.owner, 28, 1, a.ttl, o)
    case Other(qtype, qclass, data) => Rr(a.owner, qtype, qclass, a.ttl, data)
  }

  function AsRrs(answers: seq<Answered>): (rs: seq<Rr>)
    ensures |rs| == |answers| && forall i | 0 <= i < |rs| :: rs[i] == AsRr(answers[i])
  {
    seq(|answers|, i requires 0 <= i < |answers| => AsRr(answers[i]))
  }

  /** The record tells this answer and no other. */
  predicate Tells(r: Record, a: Answered) {
    && r.name == OwnerName(a.owner) && r.ttl == a.ttl
    && match a.answer
       case A(o) =>
         && r.qtype == 1 && r.ip.Some? && r.ip.value.V4?
         && forall k | 0 <= k < 4 :: r.ip.value.v4[k] == o[k]
       case Aaaa(o) =>
         && r.qtype == 28 && r.ip.Some? && r.ip.value.V6?
         && forall k | 0 <= k < 16 :: r.ip.value.v6[k] == o[k]
       case Other(qtype, _, _) => r.qtype == qtype && r.ip == None
  }

  lemma {:induction false} RecordsTell(answers: seq<Answered>, i: nat)
    requires i < |answers| && forall j | 0 <= j < |answers| :: NoAddress(answers[j].answer)
    ensures i < |AsRecords(AsRrs(answers))| == |answers| && Tells(AsRecords(AsRrs(answers))[i], answers[i])
    decreases |answers|
  {
    hide OwnerName;
    var rs := AsRrs(answers);
    assert rs[1..] == AsRrs(answers[1..]);
    if i == 0 {
      RecordTells(answers[0]);
      if |answers| > 1 {
        RecordsTell(answers[1..], 0);
      }
    } else {
      RecordsTell(answers[1..], i - 1);
    }
  }

  lemma RecordTells(a: Answered)
    requires NoAddress(a.answer)
    ensures Tells(AsRecord(AsRr(a)), a)
  {
    hide OwnerName;
  }

  /** From addresses to addresses: any answers, compressed as servers do it, come back one by one with their names,
      times to live and addresses, octet for octet; other records come back without an address. */
  lemma AddressesAreRead(id: nat, flags: nat, q: seq<Label>, qtype: nat, qclass: nat, answers: seq<Answered>,
                         places: seq<Place>, ns: nat, ar: nat, tail: seq<Byte>)
    requires 0x8000 <= flags < 0x10000 && |answers| < 0x10000
    requires forall i | 0 <= i < |q| :: Readable(q[i])
    requires forall i | 0 <= i < |answers| :: NoAddress(answers[i].answer)
    requires AllFit(AsRrs(answers)) && Compressed(q, AsRrs(answers), places)
    ensures var r := ResponseSpec(Response(id, flags, q, qtype, qclass, AsRrs(answers), ns, ar, tail));
            r.Some? && |r.value| == |answers| && forall i | 0 <= i < |answers| :: Tells(r.value[i], answers[i])
  {
    hide AllFit, Compressed, Response, ResponseSpec, AsRecords, Tells, NoAddress;
    var rs := AsRrs(answers);
    CompressedResponseReads(id, flags, q, qtype, qclass, rs, places, ns, ar, tail);
    LengthOfRecords(rs);
    forall i | 0 <= i < |answers| ensures Tells(AsRecords(rs)[i], answers[i]) {
      RecordsTell(answers, i);
    }
  }

  lemma {:induction false} LengthOfRecords(rs: seq<Rr>)
    ensures |AsRecords(rs)| == |rs|
  {
    hide AsRecord;
    if rs != [] {
      LengthOfRecords(rs[1..]);
    }
  }

  // ---------- Messages that end too soon ----------

  /** The record at this place has a name, and its fixed octets or its data reach beyond the end. */
  predicate CutAt(buf: seq<Byte>, at: nat) {
    && ReadNameSpec(buf, at).Some?
    && var next := ReadNameSpec(buf, at).value.1;
       next + 10 > |buf| || next + 10 + ReadU16(buf, next + 8) > |buf|
  }

  lemma {:induction false} RecordsThenEnd(buf: seq<Byte>, rs: seq<Rr>, at: nat, missing: nat)
    requires AllFit(rs) && AllRefer(buf, rs) && Has(buf, at, PutRrs(rs)) && missing > 0
    ensures var end := at + |PutRrs(rs)|;
            && (ReadNameSpec(buf, end) == None ==> ReadRecords(buf, at, |rs| + missing) == None)
            && (CutAt(buf, end) ==> ReadRecords(buf, at, |rs| + missing) == Some(AsRecords(rs)))
    decreases |rs|
  {
    hide Fits, Has, PutRr, AsRecord, Refers, ReadNameSpec;
    if rs != [] {
      hide ReadItem;
      AllReferFromHead(buf, rs);
      HasParts(buf, at, PutRr(rs[0]), PutRrs(rs[1..]));
      RecordReads(buf, rs[0], at);
      RecordsThenEnd(buf, rs[1..], at + |PutRr(rs[0])|, missing);
    }
  }

  /** A response that announces more records than it has: where it ends inside a record whose name is there, the records
      before that one are the answer; where it ends between two records, or inside a name, there is none at all. */
  lemma ShortResponse(buf: seq<Byte>, rs: seq<Rr>, at: nat, missing: nat)
    requires |buf| >= 12 && buf[2] >= 128 && SkipQuestions(buf, 12, ReadU16(buf, 4)) == Some(at)
    requires ReadU16(buf, 6) == |rs| + missing && missing > 0
    requires AllFit(rs) && AllRefer(buf, rs) && Has(buf, at, PutRrs(rs))
    ensures var end := at + |PutRrs(rs)|;
            && (ReadNameSpec(buf, end) == None ==> ResponseSpec(buf) == None)
            && (CutAt(buf, end) ==> ResponseSpec(buf) == Some(AsRecords(rs)))
            && (end == |buf| ==> ResponseSpec(buf) == None)
  {
    hide SkipQuestions, AllFit, AllRefer, Has, CutAt, PutRrs, AsRecords, NextAfter, ReadRecords;
    RecordsThenEnd(buf, rs, at, missing);
    var end := at + |PutRrs(rs)|;
    assert end == |buf| ==> ReadNameSpec(buf, end) == None;
    hide ReadNameSpec, Expand, ReadU16;
  }

  // ---------- Any message at all ----------

  lemma {:induction false} NoMoreThanAnnounced(buf: seq<Byte>, at: nat, count: nat)
    ensures ReadRecords(buf, at, count).Some? ==> |ReadRecords(buf, at, count).value| <= count
    decreases count
  {
    if count > 0 && ReadItem(buf, at).Item? {
      NoMoreThanAnnounced(buf, ReadItem(buf, at).next, count - 1);
    }
  }

  /** On any input, at most ANCOUNT records. */
  lemma AtMostAncount(buf: seq<Byte>)
    ensures ResponseSpec(buf).Some? ==> |buf| >= 12 && |ResponseSpec(buf).value| <= ReadU16(buf, 6)
  {
    if ResponseSpec(buf).Some? {
      NoMoreThanAnnounced(buf, SkipQuestions(buf, 12, ReadU16(buf, 4)).value, ReadU16(buf, 6));
    }
  }

  lemma NameOfPrefix(buf: seq<Byte>, n: nat, at: nat)
    requires n <= |buf|
    ensures ReadNameSpec(buf[..n], at).Some? ==> ReadNameSpec(buf, at) == ReadNameSpec(buf[..n], at)
  {
    ExpandOfPrefix(buf, n, at, 0);
    NextIsInside(buf[..n], at, 0);
    hide Expand, NextAfter;
  }

  lemma ItemOfPrefix(buf: seq<Byte>, n: nat, at: nat)
    requires n <= |buf|
    ensures ReadNameSpec(buf[..n], at).Some? ==> ReadNameSpec(buf, at) == ReadNameSpec(buf[..n], at)
    ensures ReadItem(buf[..n], at).Item? ==> ReadItem(buf, at) == ReadItem(buf[..n], at)
  {
    hide Expand, NextAfter, RecordIp, ReadNameSpec;
    NameOfPrefix(buf, n, at);
    var part := ReadItem(buf[..n], at);
    if part.Item? {
      var next := ReadNameSpec(buf, at).value.1;
      var size := ReadU16(buf, next + 8);
      assert ReadU16(buf[..n], next + 8) == size;
      assert buf[..n][next + 10..next + 10 + size] == buf[next + 10..next + 10 + size];
    }
  }

  /** The records of a message up to the first that cannot be read, be it cut short or badly named. */
  function FirstRecords(buf: seq<Byte>, at: nat, count: nat): seq<Record>
    decreases count
  {
    if count == 0 then []
    else match ReadItem(buf, at)
      case Item(record, next) => [record] + FirstRecords(buf, next, count - 1)
      case _ => []
  }

  /** Those of the whole message; none if its header or its questions cannot be read. */
  function MessageRecords(buf: seq<Byte>): seq<Record> {
    if |buf| < 12 || SkipQuestions(buf, 12, ReadU16(buf, 4)).None? then []
    else FirstRecords(buf, SkipQuestions(buf, 12, ReadU16(buf, 4)).value, ReadU16(buf, 6))
  }

  lemma {:induction false} ReadRecordsAreFirst(buf: seq<Byte>, at: nat, count: nat)
    ensures ReadRecords(buf, at, count).Some? ==> ReadRecords(buf, at, count).value == FirstRecords(buf, at, count)
    decreases count
  {
    hide ReadItem;
    if count > 0 && ReadItem(buf, at).Item? {
      ReadRecordsAreFirst(buf, ReadItem(buf, at).next, count - 1);
    }
  }

  lemma {:induction false} RecordsOfPrefix(buf: seq<Byte>, n: nat, at: nat, count: nat)
    requires n <= |buf|
    ensures FirstRecords(buf[..n], at, count) <= FirstRecords(buf, at, count)
    decreases count
  {
    hide ReadItem;
    if count > 0 {
      ItemOfPrefix(buf, n, at);
      if ReadItem(buf[..n], at).Item? {
        RecordsOfPrefix(buf, n, ReadItem(buf, at).next, count - 1);
      }
    }
  }

  lemma {:induction false} QuestionsOfPrefix(buf: seq<Byte>, n: nat, at: nat, count: nat)
    requires n <= |buf| && SkipQuestions(buf[..n], at, count).Some?
    ensures SkipQuestions(buf, at, count) == SkipQuestions(buf[..n], at, count)
    decreases count
  {
    hide ReadNameSpec;
    if count > 0 {
      ItemOfPrefix(buf, n, at);
      QuestionsOfPrefix(buf, n, ReadNameSpec(buf, at).value.1 + 4, count - 1);
    }
  }

  /** A message cut anywhere yields no answer or the first records of the whole message, even if the whole is refused
      for a name further on; and a whole message that is not refused yields exactly those records. */
  lemma CutMessageInventsNothing(buf: seq<Byte>, n: nat)
    requires n <= |buf|
    ensures ResponseSpec(buf[..n]).Some? ==> ResponseSpec(buf[..n]).value <= MessageRecords(buf)
    ensures ResponseSpec(buf).Some? ==> ResponseSpec(buf).value == MessageRecords(buf)
  {
    hide SkipQuestions, ReadRecords, FirstRecords;
    if ResponseSpec(buf).Some? {
      ReadRecordsAreFirst(buf, SkipQuestions(buf, 12, ReadU16(buf, 4)).value, ReadU16(buf, 6));
    }
    if ResponseSpec(buf[..n]).Some? {
      assert ReadU16(buf[..n], 4) == ReadU16(buf, 4) && ReadU16(buf[..n], 6) == ReadU16(buf, 6);
      QuestionsOfPrefix(buf, n, 12, ReadU16(buf, 4));
      var at := SkipQuestions(buf, 12, ReadU16(buf, 4)).value;
      ReadRecordsAreFirst(buf[..n], at, ReadU16(buf, 6));
      RecordsOfPrefix(buf, n, at, ReadU16(buf, 6));
    }
  }
}
