/** IP addresses as octets, as bits, and as one number. */
module Address {
  import opened BitTrie

  type Octet = n: nat | n < 256

  type FourOctets = s: seq<Octet> | |s| == 4 witness [0, 0, 0, 0]

  type SixteenOctets = s: seq<Octet> | |s| == 16 witness seq(16, _ => 0)

  datatype Ip = V4(v4: FourOctets) | V6(v6: SixteenOctets) {
    function Octets(): seq<Octet> {
      match this case V4(s) => s case V6(s) => s
    }

    function Width(): nat {
      match this case V4(_) => 32 case V6(_) => 128
    }
  }

  function Pow2(n: nat): (p: nat)
    ensures p > 0
  {
    if n == 0 then 1 else 2 * Pow2(n - 1)
  }

  /** `(o >> i) & 1` for i = 7 down to 0, with the shift and the mask as division. */
  function OctetBits(o: Octet): seq<Bit> {
    [o / 128 % 2, o / 64 % 2, o / 32 % 2, o / 16 % 2, o / 8 % 2, o / 4 % 2, o / 2 % 2, o % 2]
  }

  function Bits(octets: seq<Octet>): (bits: seq<Bit>)
    ensures |bits| == 8 * |octets|
  {
    if octets == [] then [] else OctetBits(octets[0]) + Bits(octets[1..])
  }

  /** The octets as one number, most significant first. */
  function Number(octets: seq<Octet>): nat {
    if octets == [] then 0 else Number(octets[..|octets| - 1]) * 256 + octets[|octets| - 1]
  }

  /** The bits as one number, most significant first. */
  function Binary(bits: seq<Bit>): nat {
    if bits == [] then 0 else 2 * Binary(bits[..|bits| - 1]) + bits[|bits| - 1]
  }

  lemma {:induction false} BitsOfLast(octets: seq<Octet>)
    requires octets != []
    ensures Bits(octets) == Bits(octets[..|octets| - 1]) + OctetBits(octets[|octets| - 1])
  {
    if |octets| > 1 {
      BitsOfLast(octets[1..]);
      assert octets[1..][..|octets| - 2] == octets[..|octets| - 1][1..];
    }
  }

  lemma BinaryPush(front: seq<Bit>, b: Bit)
    ensures Binary(front + [b]) == 2 * Binary(front) + b
  {
    assert (front + [b])[..|front|] == front;
  }

  lemma BinaryOfOctet(front: seq<Bit>, o: Octet)
    ensures Binary(front + OctetBits(o)) == 256 * Binary(front) + o
  {
    hide Binary;
    var b := OctetBits(o);
    var s4 := front + [b[0]] + [b[1]] + [b[2]] + [b[3]];
    BinaryPush(front, b[0]);
    BinaryPush(front + [b[0]], b[1]);
    BinaryPush(front + [b[0]] + [b[1]], b[2]);
    BinaryPush(front + [b[0]] + [b[1]] + [b[2]], b[3]);
    BinaryPush(s4, b[4]);
    BinaryPush(s4 + [b[4]], b[5]);
    BinaryPush(s4 + [b[4]] + [b[5]], b[6]);
    BinaryPush(s4 + [b[4]] + [b[5]] + [b[6]], b[7]);
    assert front + b == s4 + [b[4]] + [b[5]] + [b[6]] + [b[7]];
    OctetFromBits(o);
  }

  lemma OctetFromBits(o: Octet)
    ensures o == 128 * (o / 128 % 2) + 64 * (o / 64 % 2) + 32 * (o / 32 % 2) + 16 * (o / 16 % 2)
                 + 8 * (o / 8 % 2) + 4 * (o / 4 % 2) + 2 * (o / 2 % 2) + o % 2
  {
    assert o / 4 == o / 2 / 2 && o / 8 == o / 4 / 2 && o / 16 == o / 8 / 2;
    assert o / 32 == o / 16 / 2 && o / 64 == o / 32 / 2 && o / 128 == o / 64 / 2;
  }

  /** The bits of an address denote the same number as its octets. */
  lemma {:induction false} BitsDenoteNumber(octets: seq<Octet>)
    ensures Binary(Bits(octets)) == Number(octets)
  {
    if octets != [] {
      var front, last := octets[..|octets| - 1], octets[|octets| - 1];
      BitsDenoteNumber(front);
      BitsOfLast(octets);
      BinaryOfOctet(Bits(front), last);
    }
  }

  /** Cutting a bit string is dividing its number. */
  lemma {:induction false} CutIsDivision(bits: seq<Bit>, n: nat)
    requires n <= |bits|
    ensures Binary(bits[..n]) == Binary(bits) / Pow2(|bits| - n)
    decreases |bits|
  {
    if n == |bits| {
      assert bits[..n] == bits;
    } else {
      var front := bits[..|bits| - 1];
      CutIsDivision(front, n);
      assert front[..n] == bits[..n];
      HalfThenDivide(Binary(front), bits[|bits| - 1], Pow2(|front| - n));
    }
  }

  lemma HalfThenDivide(half: nat, b: Bit, d: nat)
    requires d > 0
    ensures half / d == (2 * half + b) / (2 * d)
  {
    var q, r := half / d, half % d;
    assert half == q * d + r;
    assert 2 * half + b == q * (2 * d) + (2 * r + b) && 2 * r + b < 2 * d;
    DivideUnique(2 * half + b, 2 * d, q, 2 * r + b);
  }

  lemma AtMostOneBlock(q: nat, k: nat, d: nat)
    requires q < k
    ensures q * d + d <= k * d
  {
    assert k * d == q * d + d + (k - q - 1) * d;
  }

  lemma DivideUnique(n: nat, d: nat, q: nat, r: nat)
    requires n == q * d + r && r < d
    ensures n / d == q
  {
    var k := n / d;
    assert k * d <= n < k * d + d;
    if k < q {
      AtMostOneBlock(k, q, d);
    } else if k > q {
      AtMostOneBlock(q, k, d);
    }
  }

  lemma {:induction false} BinaryIsInjective(a: seq<Bit>, b: seq<Bit>)
    requires |a| == |b| && Binary(a) == Binary(b)
    ensures a == b
    decreases |a|
  {
    if a != [] {
      var n := |a| - 1;
      BinaryIsInjective(a[..n], b[..n]);
      assert a == a[..n] + [a[n]] && b == b[..n] + [b[n]];
    }
  }

  // ---------- CIDR blocks ----------

  datatype Subnet = Subnet(net: Ip, prefix: nat)

  type Cidr = c: Subnet | c.prefix <= c.net.Width() witness Subnet(V4([0, 0, 0, 0]), 0)

  /** The bits of the network that count; its host bits do not. */
  function CidrKey(c: Cidr): (key: seq<Bit>)
    ensures |key| == c.prefix
  {
    Bits(c.net.Octets())[..c.prefix]
  }

  /** Membership in a CIDR block, on numbers: the addresses agree after division by 2^(W - p). */
  predicate InBlock(x: Ip, c: Cidr) {
    x.V4? == c.net.V4?
    && var hosts := Pow2(c.net.Width() - c.prefix); Number(x.Octets()) / hosts == Number(c.net.Octets()) / hosts
  }

  /** The trie's key comparison is CIDR membership. */
  lemma KeyIsBlock(x: Ip, c: Cidr)
    ensures InBlock(x, c) <==> x.V4? == c.net.V4? && CidrKey(c) <= Bits(x.Octets())
  {
    hide Binary, Number, Bits;
    var a, b := Bits(c.net.Octets()), Bits(x.Octets());
    if x.V4? == c.net.V4? {
      CutIsDivision(a, c.prefix);
      CutIsDivision(b, c.prefix);
      BitsDenoteNumber(c.net.Octets());
      BitsDenoteNumber(x.Octets());
      if InBlock(x, c) {
        BinaryIsInjective(a[..c.prefix], b[..c.prefix]);
        assert b == b[..c.prefix] + b[c.prefix..];
      }
      if a[..c.prefix] <= b {
        assert b[..c.prefix] == a[..c.prefix];
      }
    }
  }

  // ---------- Short prefixes by octets ----------

  lemma {:induction false} NumberOfParts(a: seq<Octet>, b: seq<Octet>)
    ensures Number(a + b) == Number(a) * Pow2(8 * |b|) + Number(b) && Number(b) < Pow2(8 * |b|)
    decreases |b|
  {
    if b == [] {
      assert a + b == a;
    } else {
      var front, last := b[..|b| - 1], b[|b| - 1];
      NumberOfParts(a, front);
      assert (a + b)[..|a + b| - 1] == a + front;
      assert Pow2(8 * |b|) == 256 * Pow2(8 * |front|) by {
        PowEight(8 * |front|);
      }
      var p := Pow2(8 * |front|);
      assert Number(a) * (256 * p) == 256 * (Number(a) * p);
    }
  }

  lemma PowEight(n: nat)
    ensures Pow2(n + 8) == 256 * Pow2(n)
  {
    assert Pow2(n + 2) == 4 * Pow2(n);
    assert Pow2(n + 4) == 4 * Pow2(n + 2);
    assert Pow2(n + 6) == 4 * Pow2(n + 4);
  }

  lemma {:induction false} PowSum(a: nat, b: nat)
    ensures Pow2(a + b) == Pow2(a) * Pow2(b)
    decreases b
  {
    if b > 0 {
      PowSum(a, b - 1);
      assert Pow2(a + b) == 2 * Pow2(a + b - 1);
    }
  }

  lemma DivisionOfParts(h: nat, q: nat, r: nat, d: nat)
    requires q > 0 && d > 0 && r < q
    ensures (h * q + r) / (q * d) == h / d
  {
    var k := h / d;
    var m := h % d;
    assert h == k * d + m;
    assert h * q + r == k * (q * d) + (m * q + r) by {
      assert (k * d + m) * q == k * (d * q) + m * q;
    }
    assert m * q + r < q * d by {
      assert m * q <= (d - 1) * q;
    }
    DivideUnique(h * q + r, q * d, k, m * q + r);
  }

  /** The first two octets as one number. */
  function Head(o: seq<Octet>): nat
    requires |o| >= 2
  {
    o[0] as int * 256 + o[1] as int
  }

  /** A prefix of up to sixteen bits looks at the first two octets only. */
  lemma HighOctets(o: seq<Octet>, prefix: nat)
    requires |o| >= 2 && prefix <= 16
    ensures Number(o) / Pow2(8 * |o| - prefix) == Head(o) / Pow2(16 - prefix)
  {
    var a, b := o[..2], o[2..];
    assert o == a + b;
    NumberOfParts(a, b);
    assert a[..1] == [o[0]] && a[..1][..0] == [] && Number(a[..1]) == o[0] as int;
    assert Number(a) == Head(o);
    hide Number, Pow2, Head;
    PowSum(8 * |b|, 16 - prefix);
    DivisionOfParts(Head(o), Pow2(8 * |b|), Number(b), Pow2(16 - prefix));
  }

  /** So such a block is an interval of the first two octets. */
  lemma ShortBlock(x: Ip, c: Cidr)
    requires c.prefix <= 16
    ensures InBlock(x, c) <==>
            x.V4? == c.net.V4? && Head(x.Octets()) / Pow2(16 - c.prefix) == Head(c.net.Octets()) / Pow2(16 - c.prefix)
  {
    HighOctets(x.Octets(), c.prefix);
    HighOctets(c.net.Octets(), c.prefix);
    hide Number, Pow2, Head;
  }

  /** A block of one address. */
  lemma FullBlock(x: Ip, c: Cidr)
    requires c.prefix == c.net.Width()
    ensures InBlock(x, c) <==> x == c.net
  {
    hide Number;
    assert Pow2(0) == 1;
    if x.V4? == c.net.V4? && Number(x.Octets()) == Number(c.net.Octets()) {
      NumberIsInjective(x.Octets(), c.net.Octets());
    }
  }

  lemma {:induction false} NumberIsInjective(a: seq<Octet>, b: seq<Octet>)
    requires |a| == |b| && Number(a) == Number(b)
    ensures a == b
    decreases |a|
  {
    if a != [] {
      var n := |a| - 1;
      NumberIsInjective(a[..n], b[..n]);
      assert a == a[..n] + [a[n]] && b == b[..n] + [b[n]];
    }
  }
}
