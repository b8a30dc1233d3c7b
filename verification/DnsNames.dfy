/** What reading a compressed name means: the loop against section 4.1.4 of RFC 1035, bounds,
    and the round trip of a question. */
module DnsNames {
  import opened Prelude
  import opened Text
  import opened Slices
  import opened DnsWire

  // ---------- The reading is the denotation, cut at sixteen jumps ----------

  lemma {:induction false} ExpandDenotes(buf: seq<Byte>, at: nat, hops: nat) returns (jumps: nat)
    requires hops <= MAX_HOPS
    ensures Expand(buf, at, hops).Some? ==>
              jumps <= MAX_HOPS - hops && Denotes(buf, at, Expand(buf, at, hops).value, jumps)
    decreases MAX_HOPS - hops, |buf| - at
  {
    jumps := 0;
    if Expand(buf, at, hops).Some? && buf[at] != 0 {
      if IsPointer(buf[at]) {
        jumps := ExpandDenotes(buf, Target(buf, at), hops + 1);
        jumps := jumps + 1;
      } else {
        jumps := ExpandDenotes(buf, at + 1 + buf[at], hops);
      }
    }
  }

  lemma {:induction false} DenotesExpands(buf: seq<Byte>, at: nat, labels: seq<Label>, jumps: nat, hops: nat)
    requires Denotes(buf, at, labels, jumps) && hops + jumps <= MAX_HOPS
    ensures Expand(buf, at, hops) == Some(labels)
    decreases jumps, |labels|
  {
    if buf[at] != 0 {
      if IsPointer(buf[at]) {
        DenotesExpands(buf, Target(buf, at), labels, jumps - 1, hops + 1);
      } else {
        DenotesExpands(buf, at + 1 + buf[at], labels[1..], jumps, hops);
        assert [labels[0]] + labels[1..] == labels;
      }
    }
  }

  /** The name denotes these labels within the limit on jumps. */
  ghost predicate DenotesSoon(buf: seq<Byte>, at: nat, labels: seq<Label>) {
    exists jumps: nat :: jumps <= 16 && Denotes(buf, at, labels, jumps)
  }

  /** A name is read exactly when it denotes something within sixteen jumps, and then as that. */
  lemma ExpandIsDenotation(buf: seq<Byte>, at: nat, labels: seq<Label>)
    ensures Expand(buf, at, 0) == Some(labels) <==> DenotesSoon(buf, at, labels)
  {
    if Expand(buf, at, 0) == Some(labels) {
      var n := ExpandDenotes(buf, at, 0);
      assert DenotesSoon(buf, at, labels);
    }
    if DenotesSoon(buf, at, labels) {
      var n: nat :| n <= 16 && Denotes(buf, at, labels, n);
      DenotesExpands(buf, at, labels, n, 0);
    }
  }

  /** Reading from `at` passes `to` after these labels and this many pointers. */
  ghost predicate Leads(buf: seq<Byte>, at: nat, to: nat, labels: seq<Label>, jumps: nat)
    decreases jumps, |labels|
  {
    || (at == to && labels == [] && jumps == 0)
    || (at < |buf| && buf[at] != 0 &&
        if IsPointer(buf[at]) then
          jumps > 0 && at + 1 < |buf| && Leads(buf, Target(buf, at), to, labels, jumps - 1)
        else
          var end := at + 1 + buf[at];
          labels != [] && end <= |buf| && labels[0] == buf[at + 1..end] && Leads(buf, end, to, labels[1..], jumps))
  }

  lemma {:induction false} RestIsDenoted(buf: seq<Byte>, at: nat, labels: seq<Label>, jumps: nat,
                                         to: nat, front: seq<Label>, used: nat)
    requires Denotes(buf, at, labels, jumps) && Leads(buf, at, to, front, used)
    ensures |front| <= |labels| && used <= jumps && Denotes(buf, to, labels[|front|..], jumps - used)
    decreases used, |front|
  {
    if at == to && front == [] && used == 0 {
      assert labels[0..] == labels;
    } else if IsPointer(buf[at]) {
      RestIsDenoted(buf, Target(buf, at), labels, jumps - 1, to, front, used - 1);
    } else {
      RestIsDenoted(buf, at + 1 + buf[at], labels[1..], jumps, to, front[1..], used);
      assert labels[1..][|front| - 1..] == labels[|front|..];
    }
  }

  lemma {:induction false} LoopDenotesNothing(buf: seq<Byte>, at: nat, labels: seq<Label>, jumps: nat,
                                              round: seq<Label>, used: nat)
    requires Denotes(buf, at, labels, jumps) && Leads(buf, at, at, round, used) && used > 0
    ensures false
    decreases jumps
  {
    RestIsDenoted(buf, at, labels, jumps, at, round, used);
    LoopDenotesNothing(buf, at, labels[|round|..], jumps - used, round, used);
  }

  /** A name that runs into a loop of pointers, with or without labels on the way and of any length, is never
      read. */
  lemma PointerLoopsAreRefused(buf: seq<Byte>, start: nat, at: nat, front: seq<Label>, before: nat,
                               round: seq<Label>, used: nat, hops: nat)
    requires hops <= MAX_HOPS && used > 0
    requires Leads(buf, start, at, front, before) && Leads(buf, at, at, round, used)
    ensures Expand(buf, start, hops) == None
  {
    if Expand(buf, start, hops).Some? {
      var labels := Expand(buf, start, hops).value;
      var jumps := ExpandDenotes(buf, start, hops);
      RestIsDenoted(buf, start, labels, jumps, at, front, before);
      LoopDenotesNothing(buf, at, labels[|front|..], jumps - before, round, used);
    }
  }

  // ---------- Bounds ----------

  function Octets(labels: seq<Label>): nat {
    if labels == [] then 0 else |labels[0]| + Octets(labels[1..])
  }

  /** The octets that the hops still to come may yield. */
  function Allowance(hops: nat, size: nat): nat
    requires hops <= MAX_HOPS
  {
    (MAX_HOPS - hops) * size
  }

  lemma {:induction false} ExpandIsBounded(buf: seq<Byte>, at: nat, hops: nat)
    requires hops <= MAX_HOPS && at <= |buf|
    ensures Expand(buf, at, hops).Some? ==>
              Octets(Expand(buf, at, hops).value) <= |buf| - at + Allowance(hops, |buf|)
    decreases MAX_HOPS - hops, |buf| - at
  {
    hide Allowance;
    if Expand(buf, at, hops).Some? && buf[at] != 0 {
      if IsPointer(buf[at]) {
        assert Expand(buf, Target(buf, at), hops + 1).Some?;
        assert Target(buf, at) < |buf|;
        ExpandIsBounded(buf, Target(buf, at), hops + 1);
        OneHopFewer(hops, |buf|);
      } else {
        ExpandIsBounded(buf, at + 1 + buf[at], hops);
      }
    }
  }

  lemma OneHopFewer(hops: nat, size: nat)
    requires hops < MAX_HOPS
    ensures Allowance(hops, size) == size + Allowance(hops + 1, size)
  {
  }

  /** However the pointers are arranged, a name has at most seventeen times the message's octets. */
  lemma NameIsBounded(buf: seq<Byte>, at: nat)
    requires ReadNameSpec(buf, at).Some?
    ensures Octets(ReadNameSpec(buf, at).value.0) <= 17 * |buf|
  {
    ExpandIsBounded(buf, at, 0);
  }

  // ---------- Longer messages read the same ----------

  lemma {:induction false} ExpandOfPrefix(buf: seq<Byte>, n: nat, at: nat, hops: nat)
    requires n <= |buf| && hops <= MAX_HOPS
    ensures Expand(buf[..n], at, hops).Some? ==> Expand(buf, at, hops) == Expand(buf[..n], at, hops)
    ensures NextAfter(buf[..n], at).Some? ==> NextAfter(buf, at) == NextAfter(buf[..n], at)
    decreases MAX_HOPS - hops, n - at
  {
    if at < n && buf[at] != 0 {
      if IsPointer(buf[at]) {
        if at + 1 < n && hops < MAX_HOPS {
          ExpandOfPrefix(buf, n, Target(buf, at), hops + 1);
        }
      } else if at + 1 + buf[at] <= n {
        ExpandOfPrefix(buf, n, at + 1 + buf[at], hops);
        assert buf[..n][at + 1..at + 1 + buf[at]] == buf[at + 1..at + 1 + buf[at]];
      }
    }
  }

  // ---------- Written labels read back ----------

  /** Lengths that survive as a length byte: not zero, and not taken for a pointer. */
  predicate Readable(part: Label) {
    1 <= |part| < 0xC0
  }

  lemma PutLabelsPush(front: seq<Label>, last: Label)
    ensures PutLabels(front + [last]) == PutLabels(front) + PutLabel(last)
  {
    hide PutLabel;
    assert (front + [last])[..|front|] == front;
  }

  lemma PutLabelsOfOne(part: Label)
    ensures PutLabels([part]) == PutLabel(part)
  {
    hide PutLabel;
    assert [part][..0] == [] && [] + PutLabel(part) == PutLabel(part);
  }

  lemma {:induction false} PutLabelsAppend(a: seq<Label>, b: seq<Label>)
    ensures PutLabels(a + b) == PutLabels(a) + PutLabels(b)
    decreases |b|
  {
    if b == [] {
      assert a + b == a && PutLabels(a) + [] == PutLabels(a);
    } else {
      hide PutLabel, PutLabels;
      var front, last := b[..|b| - 1], b[|b| - 1];
      PutLabelsAppend(a, front);
      PutLabelsPush(a + front, last);
      PutLabelsPush(front, last);
      Regroup(a, front, [last]);
      Regroup(PutLabels(a), PutLabels(front), PutLabel(last));
      assert front + [last] == b;
    }
  }

  lemma PutLabelsFromFront(labels: seq<Label>)
    requires labels != []
    ensures PutLabels(labels) == PutLabel(labels[0]) + PutLabels(labels[1..])
  {
    hide PutLabel, PutLabels;
    PutLabelsAppend([labels[0]], labels[1..]);
    PutLabelsOfOne(labels[0]);
    assert [labels[0]] + labels[1..] == labels;
  }

  /** Reading at `at` yields these labels and then whatever reading at `end` yields. */
  ghost predicate Continues(buf: seq<Byte>, at: nat, labels: seq<Label>, end: nat, hops: nat)
    requires hops <= MAX_HOPS
  {
    && NextAfter(buf, at) == NextAfter(buf, end)
    && (Expand(buf, at, hops).Some? <==> Expand(buf, end, hops).Some?)
    && (Expand(buf, at, hops).Some? ==> Expand(buf, at, hops).value == labels + Expand(buf, end, hops).value)
  }

  lemma ContinuesPast(buf: seq<Byte>, at: nat, a: seq<Label>, mid: nat, b: seq<Label>, end: nat, hops: nat)
    requires hops <= MAX_HOPS && Continues(buf, at, a, mid, hops) && Continues(buf, mid, b, end, hops)
    ensures Continues(buf, at, a + b, end, hops)
  {
    hide Expand, NextAfter;
  }

  lemma {:induction false} ExpandOfPut(buf: seq<Byte>, at: nat, labels: seq<Label>, hops: nat)
    requires hops <= MAX_HOPS && Has(buf, at, PutLabels(labels))
    requires forall i | 0 <= i < |labels| :: Readable(labels[i])
    ensures Continues(buf, at, labels, at + |PutLabels(labels)|, hops)
    decreases |labels|
  {
    hide PutLabels, Expand, NextAfter, Has, Continues, Readable;
    if labels == [] {
      NothingContinues(buf, at, labels, hops);
    } else {
      var part, rest := labels[0], labels[1..];
      PutLabelsFromFront(labels);
      var mid, end := at + 1 + |part|, at + |PutLabels(labels)|;
      assert end == mid + |PutLabels(rest)|;
      HasParts(buf, at, PutLabel(part), PutLabels(rest));
      LabelParts(buf, at, part);
      ExpandOfPut(buf, mid, rest, hops);
      LabelStep(buf, at, part, hops);
      ContinuesPast(buf, at, [part], mid, rest, end, hops);
      assert labels == [part] + rest;
    }
  }

  lemma LabelParts(buf: seq<Byte>, at: nat, part: Label)
    requires Has(buf, at, PutLabel(part))
    ensures Has(buf, at, [|part| % 256]) && Has(buf, at + 1, part)
  {
    HasParts(buf, at, [|part| % 256], part);
  }

  lemma NothingContinues(buf: seq<Byte>, at: nat, labels: seq<Label>, hops: nat)
    requires hops <= MAX_HOPS && labels == []
    ensures Continues(buf, at, labels, at + |PutLabels(labels)|, hops)
  {
    hide Expand, NextAfter;
  }

  lemma LabelStep(buf: seq<Byte>, at: nat, part: Label, hops: nat)
    requires hops <= MAX_HOPS && Readable(part) && Has(buf, at, [|part| % 256]) && Has(buf, at + 1, part)
    ensures Continues(buf, at, [part], at + 1 + |part|, hops)
  {
    assert buf[at] == buf[at..at + 1][0] == |part|;
  }

  // ---------- The round trip of a question ----------

  lemma {:induction false} NonEmptyHasNoEmpty<T>(parts: seq<seq<T>>)
    ensures [] !in NonEmpty(parts)
  {
    if parts != [] {
      NonEmptyHasNoEmpty(parts[1..]);
    }
  }

  lemma QueryHasLabels(name: seq<Byte>, qtype: nat, id: nat)
    ensures var labels := NameLabels(name);
            var q := Query(name, qtype, id);
            var end := 12 + |PutLabels(labels)|;
            Has(q, 12, PutLabels(labels)) && |q| == end + 5 && q[end] == 0
  {
    hide U16, QueryHeader, PutLabels, NameLabels;
    var labels := NameLabels(name);
    var q, h, p := Query(name, qtype, id), QueryHeader(id), PutLabels(labels);
    assert q == h + (p + ([0] + U16(qtype) + U16(1)));
    assert q[12..12 + |p|] == p;
  }

  /** Labels of up to 191 octets read back, leaving exactly the type and the class. */
  lemma QueryReadsBack(name: seq<Byte>, qtype: nat, id: nat)
    requires forall l | l in NameLabels(name) :: |l| < 0xC0
    ensures var q := Query(name, qtype, id);
            ReadNameSpec(q, 12) == Some((NameLabels(name), |q| - 4))
  {
    hide Query, PutLabels, Expand, NextAfter, NameLabels;
    var q, labels := Query(name, qtype, id), NameLabels(name);
    QueryHasLabels(name, qtype, id);
    LabelsAreNotEmpty(name);
    ExpandOfPut(q, 12, labels, 0);
    EndOfName(q, 12 + |PutLabels(labels)|, 0);
    assert labels + [] == labels;
  }

  lemma LabelsAreNotEmpty(name: seq<Byte>)
    ensures [] !in NameLabels(name)
  {
    NonEmptyHasNoEmpty(Split(name, DOT));
  }

  lemma EndOfName(buf: seq<Byte>, at: nat, hops: nat)
    requires hops <= MAX_HOPS && at < |buf| && buf[at] == 0
    ensures Expand(buf, at, hops) == Some([]) && NextAfter(buf, at) == Some(at + 1)
  {
  }

  lemma {:induction false} FirstLong(labels: seq<Label>) returns (i: nat)
    requires exists l :: l in labels && |l| >= 0xC0
    ensures i < |labels| && |labels[i]| >= 0xC0 && forall j | 0 <= j < i :: |labels[j]| < 0xC0
  {
    if |labels[0]| >= 0xC0 {
      i := 0;
    } else {
      assert forall l | l in labels && |l| >= 0xC0 :: l in labels[1..];
      i := FirstLong(labels[1..]);
      i := i + 1;
    }
  }

  /** Where the `i`th label of the question starts. */
  lemma LabelIsThere(name: seq<Byte>, qtype: nat, id: nat, i: nat)
    requires i < |NameLabels(name)|
    ensures var q := Query(name, qtype, id);
            var labels := NameLabels(name);
            var at := 12 + |PutLabels(labels[..i])|;
            && Has(q, 12, PutLabels(labels[..i])) && at < |q| && q[at] == |labels[i]| % 256
            && at + 1 + |labels[i]| + 5 <= |q|
  {
    var q, labels := Query(name, qtype, id), NameLabels(name);
    QueryHasLabels(name, qtype, id);
    hide Query, NameLabels;
    assert labels == labels[..i] + labels[i..];
    PutLabelsAppend(labels[..i], labels[i..]);
    PutLabelsFromFront(labels[i..]);
    hide PutLabels;
    HasParts(q, 12, PutLabels(labels[..i]), PutLabels(labels[i..]));
    var at := 12 + |PutLabels(labels[..i])|;
    assert q[at] == q[at..at + |PutLabels(labels[i..])|][0];
  }

  /** The fixed fields of a question: the identifier, recursion desired and nothing else, one question and no
      records, and after the name the type asked for and class IN. It is not taken for an answer. */
  lemma QueryFields(name: seq<Byte>, qtype: nat, id: nat)
    requires qtype < 0x10000 && id < 0x10000
    ensures var q := Query(name, qtype, id);
            && |q| >= 17 && ReadU16(q, 0) == id && q[2] == 1 && q[3] == 0
            && ReadU16(q, 4) == 1 && ReadU16(q, 6) == 0 && ReadU16(q, 8) == 0 && ReadU16(q, 10) == 0
            && ReadU16(q, |q| - 4) == qtype && ReadU16(q, |q| - 2) == 1
            && ResponseSpec(q) == None
  {
    var q, h, p := Query(name, qtype, id), QueryHeader(id), PutLabels(NameLabels(name));
    assert q == h + p + [0] + U16(qtype) + U16(1);
    assert forall i | 0 <= i < 12 :: q[i] == h[i];
    assert q[|q| - 4..] == U16(qtype) + U16(1);
    assert q[|q| - 4] == q[|q| - 4..][0] && q[|q| - 3] == q[|q| - 4..][1];
    assert q[|q| - 2] == q[|q| - 4..][2] && q[|q| - 1] == q[|q| - 4..][3];
    hide PutLabels, NameLabels;
  }

  /** What is not marked as a response, or is too short to have a header, is refused. */
  lemma OnlyResponsesAreRead(buf: seq<Byte>)
    requires |buf| < 12 || buf[2] < 128
    ensures ResponseSpec(buf) == None
  {
  }

  /** A label of 192 octets or more is misread: as a pointer, as the end, or as a shorter label. */
  lemma LongLabelIsMisread(name: seq<Byte>, qtype: nat, id: nat)
    requires exists l :: l in NameLabels(name) && |l| >= 0xC0
    ensures var q := Query(name, qtype, id);
            ReadNameSpec(q, 12) != Some((NameLabels(name), |q| - 4))
  {
    var q, labels := Query(name, qtype, id), NameLabels(name);
    var i := FirstLong(labels);
    LabelIsThere(name, qtype, id, i);
    LabelsAreNotEmpty(name);
    ExpandOfPut(q, 12, labels[..i], 0);
    hide Query, NameLabels, PutLabels;
    MisreadAt(q, 12, labels, i, 12 + |PutLabels(labels[..i])|);
  }

  lemma MisreadAt(q: seq<Byte>, start: nat, labels: seq<Label>, i: nat, at: nat)
    requires i < |labels| && |labels[i]| >= 0xC0 && Continues(q, start, labels[..i], at, 0)
    requires at < |q| && q[at] == |labels[i]| % 256 && at + 1 + |labels[i]| + 5 <= |q|
    ensures ReadNameSpec(q, start) != Some((labels, |q| - 4))
  {
    if q[at] != 0 && !IsPointer(q[at]) && Expand(q, at, 0).Some? {
      var part := q[at + 1..at + 1 + q[at]];
      assert Expand(q, at, 0).value[0] == part && |part| < |labels[i]|;
      assert (labels[..i] + Expand(q, at, 0).value)[i] == part;
    }
  }

  /** The question reads back exactly when every label is shorter than 192 octets. */
  lemma QueryRoundTrip(name: seq<Byte>, qtype: nat, id: nat)
    ensures var q := Query(name, qtype, id);
            ReadNameSpec(q, 12) == Some((NameLabels(name), |q| - 4))
            <==> forall l | l in NameLabels(name) :: |l| < 0xC0
  {
    hide Query, NameLabels, ReadNameSpec;
    if forall l | l in NameLabels(name) :: |l| < 0xC0 {
      QueryReadsBack(name, qtype, id);
    } else {
      LongLabelIsMisread(name, qtype, id);
    }
  }

  /** Joined with dots, the labels are the name they came from; and none of them has a dot. */
  lemma LabelsJoinToName(name: seq<Byte>)
    requires [] !in Split(name, 46)
    ensures Join(NameLabels(name), 46) == name && forall i | 0 <= i < |NameLabels(name)| :: 46 !in NameLabels(name)[i]
  {
    NonEmptyOfNonEmpty(Split(name, 46));
    JoinOfSplit(name, 46);
    SplitHasNoSeparator(name, 46);
  }

  lemma {:induction false} SplitHasNoSeparator(s: seq<Byte>, sep: Byte)
    ensures forall i | 0 <= i < |Split(s, sep)| :: sep !in Split(s, sep)[i]
  {
    if s != [] {
      SplitHasNoSeparator(s[1..], sep);
    }
  }
}
