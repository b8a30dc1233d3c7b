/** One sequence standing inside another at a known place. */
module Slices {
  ghost predicate Has<T>(buf: seq<T>, at: nat, part: seq<T>) {
    at + |part| <= |buf| && buf[at..at + |part|] == part
  }

  lemma HasParts<T>(buf: seq<T>, at: nat, a: seq<T>, b: seq<T>)
    ensures Has(buf, at, a + b) <==> Has(buf, at, a) && Has(buf, at + |a|, b)
  {
    if Has(buf, at, a + b) {
      assert buf[at..at + |a|] == (a + b)[..|a|];
      assert buf[at + |a|..at + |a| + |b|] == (a + b)[|a|..];
    }
    if Has(buf, at, a) && Has(buf, at + |a|, b) {
      assert buf[at..at + |a| + |b|] == buf[at..at + |a|] + buf[at + |a|..at + |a| + |b|];
    }
  }

  lemma HasWhole<T>(buf: seq<T>)
    ensures Has(buf, 0, buf)
  {
    assert buf[0..|buf|] == buf;
  }

  lemma HasAt<T>(buf: seq<T>, at: nat, part: seq<T>, i: nat)
    requires Has(buf, at, part) && i < |part|
    ensures buf[at + i] == part[i]
  {
    assert buf[at..at + |part|][i] == buf[at + i];
  }

  lemma Regroup<T>(a: seq<T>, b: seq<T>, c: seq<T>)
    ensures (a + b) + c == a + (b + c)
  {
  }
}
