/** Base-128 varints of up to 64 bits, as the protobuf wire format writes them. */
module Varint {
  import opened Prelude
  import opened Slices
  import opened Address

  type Bytes = seq<Octet>

  const TWO_64: nat := 0x1_0000_0000_0000_0000

  type UInt64 = n: nat | n < TWO_64

  /** Seven bits a byte, least significant first; all bytes but the last carry the high bit. */
  function Put(value: nat): (b: Bytes)
    ensures |b| > 0
  {
    if value < 0x80 then [value] else [value % 0x80 + 0x80] + Put(value / 0x80)
  }

  method Write(stream: Bytes, v: UInt64) returns (r: Bytes)
    ensures r == stream + Put(v)
  {
    r := stream;
    var value: nat := v;
    while value >= 0x80
      invariant r + Put(value) == stream + Put(v)
    {
      r := r + [value % 0x80 + 0x80];
      value := value / 0x80;
    }
    r := r + [value];
  }

  /** Bitwise or. */
  function Or(a: nat, b: nat): nat {
    if a == 0 then b else if b == 0 then a
    else 2 * Or(a / 2, b / 2) + if a % 2 == 1 || b % 2 == 1 then 1 else 0
  }

  /** A bit is set in the result if and only if it is set in one of the two. */
  lemma {:induction false} OrMeans(a: nat, b: nat, k: nat)
    ensures Or(a, b) / Pow2(k) % 2 == 1 <==> a / Pow2(k) % 2 == 1 || b / Pow2(k) % 2 == 1
    decreases k
  {
    if a != 0 && b != 0 {
      if k == 0 {
        assert Pow2(0) == 1;
      } else {
        OrMeans(a / 2, b / 2, k - 1);
        HalfOfQuotient(a, k);
        HalfOfQuotient(b, k);
        HalfOfQuotient(Or(a, b), k);
      }
    } else {
      assert 0 / Pow2(k) == 0;
    }
  }

  lemma HalfOfQuotient(a: nat, k: nat)
    requires k > 0
    ensures a / Pow2(k) == a / 2 / Pow2(k - 1)
  {
    var p, h := Pow2(k - 1), a / 2;
    var q, r := h / p, h % p;
    assert a == q * (2 * p) + (2 * r + a % 2) by {
      assert h == q * p + r;
    }
    DivideUnique(a, 2 * p, q, 2 * r + a % 2);
  }

  /** `acc |= (b & 0x7F) << shift` in integers of 64 or 32 bits: the shift count is taken modulo the
      width, so that the bits of over-long varints wrap, and bits beyond the width are lost. */
  function Fold(acc: nat, b: Octet, shift: nat, width: nat): nat
    requires width > 0
  {
    Or(acc, b % 0x80 * Pow2(shift % width) % Pow2(width))
  }

  /** The value and the position after it; `None` when the bytes run out. */
  function Get(buf: Bytes, pos: nat, acc: nat, shift: nat, width: nat): (r: Option<(nat, nat)>)
    requires width > 0
    ensures r.Some? ==> pos < r.value.1 <= |buf|
    decreases |buf| - pos
  {
    if pos >= |buf| then None
    else if buf[pos] < 0x80 then Some((Fold(acc, buf[pos], shift, width), pos + 1))
    else Get(buf, pos + 1, Fold(acc, buf[pos], shift, width), shift + 7, width)
  }

  function Value(buf: Bytes, pos: nat): Option<(nat, nat)> {
    Get(buf, pos, 0, 0, 64)
  }

  method Read(buf: Bytes, start: nat, width: nat) returns (r: Option<(nat, nat)>)
    requires width > 0
    ensures r == Get(buf, start, 0, 0, width)
  {
    hide Fold;
    var result: nat, shift: nat, pos: nat := 0, 0, start;
    while pos < |buf|
      invariant Get(buf, start, 0, 0, width) == Get(buf, pos, result, shift, width)
    {
      var b := buf[pos];
      pos := pos + 1;
      result := Fold(result, b, shift, width);
      if b < 0x80 {
        return Some((result, pos));
      }
      shift := shift + 7;
    }
    r := None;
  }

  // ---------- Round trip ----------

  /** Bits above all of `a` are added to it. */
  lemma {:induction false} OrOfHigher(a: nat, c: nat, k: nat)
    requires a < Pow2(k)
    ensures Or(a, c * Pow2(k)) == a + c * Pow2(k)
    decreases k
  {
    if k > 0 && a != 0 && c != 0 {
      var p := Pow2(k - 1);
      assert c * Pow2(k) == 2 * (c * p);
      OrOfHigher(a / 2, c, k - 1);
    }
  }

  lemma PowSeven(shift: nat)
    ensures Pow2(shift + 7) == 128 * Pow2(shift)
  {
    assert Pow2(shift + 2) == 4 * Pow2(shift);
    assert Pow2(shift + 4) == 4 * Pow2(shift + 2);
    assert Pow2(shift + 6) == 4 * Pow2(shift + 4);
  }

  lemma {:induction false} PowGrows(a: nat, b: nat)
    requires a <= b
    ensures Pow2(a) <= Pow2(b)
    decreases b
  {
    if a < b {
      PowGrows(a, b - 1);
    }
  }

  lemma {:induction false} PowTimes(a: nat, b: nat)
    ensures Pow2(a + b) == Pow2(a) * Pow2(b)
    decreases b
  {
    if b > 0 {
      PowTimes(a, b - 1);
    }
  }

  lemma Squares(n: nat, p: nat)
    requires Pow2(n) == p
    ensures Pow2(n + n) == p * p
  {
    hide Pow2;
    PowTimes(n, n);
  }

  lemma Pow32()
    ensures Pow2(32) == 0x1_0000_0000
  {
    assert Pow2(2) == 4;
    hide Pow2;
    Squares(2, 4);
    Squares(4, 16);
    Squares(8, 256);
    Squares(16, 65536);
  }

  lemma Pow64()
    ensures Pow2(64) == TWO_64
  {
    Pow32();
    hide Pow2;
    Squares(32, 0x1_0000_0000);
  }

  /** One more byte: what was read so far stays below the bits to come. */
  lemma FoldAdds(acc: nat, b: Octet, shift: nat, width: nat)
    requires acc < Pow2(shift) && shift < width && b % 0x80 * Pow2(shift) < Pow2(width)
    ensures Fold(acc, b, shift, width) == acc + b % 0x80 * Pow2(shift)
    ensures Fold(acc, b, shift, width) < Pow2(shift + 7)
  {
    hide Or, Pow2;
    var d: nat, p := b % 0x80, Pow2(shift);
    AtMost127(d, p);
    PowSeven(shift);
    OrOfHigher(acc, d, shift);
    Inside(shift, width);
    Inside(d * p, Pow2(width));
  }

  lemma Inside(n: nat, m: nat)
    requires n < m
    ensures n % m == n
  {
  }

  lemma AtMost127(d: nat, p: nat)
    requires d < 128
    ensures d * p <= 127 * p
  {
  }

  lemma Digits(value: nat, p: nat)
    ensures value * p == value % 0x80 * p + value / 0x80 * (128 * p)
    ensures value % 0x80 * p <= value * p && value / 0x80 * (128 * p) <= value * p
  {
    var q, d := value / 0x80, value % 0x80;
    assert value == 128 * q + d;
    assert (128 * q + d) * p == q * (128 * p) + d * p;
  }

  lemma RoomForMore(shift: nat, q: nat, width: nat)
    requires q > 0 && q * Pow2(shift + 7) < Pow2(width)
    ensures shift + 7 < width
  {
    if shift + 7 >= width {
      PowGrows(width, shift + 7);
      AtLeastOnce(q, Pow2(shift + 7));
    }
  }

  lemma AtLeastOnce(q: nat, p: nat)
    requires q > 0
    ensures p <= q * p
  {
  }

  lemma {:induction false} GetOfPut(buf: Bytes, pos: nat, value: nat, acc: nat, shift: nat, width: nat)
    requires Has(buf, pos, Put(value)) && shift < width && acc < Pow2(shift) && value * Pow2(shift) < Pow2(width)
    ensures Get(buf, pos, acc, shift, width) == Some((acc + value * Pow2(shift), pos + |Put(value)|))
    decreases value
  {
    hide Fold, Pow2;
    HasAt(buf, pos, Put(value), 0);
    var b := Put(value)[0];
    var p := Pow2(shift);
    assert b % 0x80 == value % 0x80;
    Digits(value, p);
    FoldAdds(acc, b, shift, width);
    if value >= 0x80 {
      PowSeven(shift);
      RoomForMore(shift, value / 0x80, width);
      HasParts(buf, pos, [b], Put(value / 0x80));
      GetOfPut(buf, pos + 1, value / 0x80, Fold(acc, b, shift, width), shift + 7, width);
    }
  }

  /** Writing and then reading is the identity on all 64-bit values, wherever the bytes stand. */
  lemma RoundTrip(buf: Bytes, pos: nat, value: UInt64)
    requires Has(buf, pos, Put(value))
    ensures Value(buf, pos) == Some((value as nat, pos + |Put(value)|))
  {
    hide Put, Get;
    Pow64();
    GetOfPut(buf, pos, value, 0, 0, 64);
  }

  /** The 32-bit reader agrees on values below 2^32. */
  lemma RoundTrip32(buf: Bytes, pos: nat, value: nat)
    requires Has(buf, pos, Put(value)) && value < 0x1_0000_0000
    ensures Get(buf, pos, 0, 0, 32) == Some((value, pos + |Put(value)|))
  {
    hide Put, Get;
    Pow32();
    GetOfPut(buf, pos, value, 0, 0, 32);
  }
}
