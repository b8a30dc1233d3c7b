/** GeoIP: the country of an address by longest-prefix match over loaded CIDR lists, with the
    private and special ranges built in. */
module GeoIp {
  import opened Prelude
  import opened Text
  import opened PrefixMap
  import opened Address
  import opened Rules
  import BitTrie

  const PRIVATE := "PRIVATE"

  const PRIVATE_V4: seq<(FourOctets, nat)> := [
    ([0, 0, 0, 0], 8), ([10, 0, 0, 0], 8), ([100, 64, 0, 0], 10), ([127, 0, 0, 0], 8),
    ([169, 254, 0, 0], 16), ([172, 16, 0, 0], 12), ([192, 168, 0, 0], 16), ([224, 0, 0, 0], 4)]

  const PRIVATE_V6: seq<(SixteenOctets, nat)> := [
    ([0, 0, 0, 0, 0, 0, 0, 0, 0, 0, 0, 0, 0, 0, 0, 1], 128),
    ([0xfc, 0, 0, 0, 0, 0, 0, 0, 0, 0, 0, 0, 0, 0, 0, 0], 7),
    ([0xfe, 0x80, 0, 0, 0, 0, 0, 0, 0, 0, 0, 0, 0, 0, 0, 0], 10)]

  /** A block and the country it was listed under. */
  datatype Entry = Entry(cidr: Cidr, country: string)

  /** The entries of one family as writes to its trie. */
  function Writes(entries: seq<Entry>, v4: bool): seq<(seq<BitTrie.Bit>, string)>
  {
    if entries == [] then []
    else
      var last := entries[|entries| - 1];
      Writes(entries[..|entries| - 1], v4)
      + if last.cidr.net.V4? == v4 then [(CidrKey(last.cidr), last.country)] else []
  }

  function PrivateEntries(): (entries: seq<Entry>)
    ensures |entries| == |PRIVATE_V4| + |PRIVATE_V6|
    ensures forall i | 0 <= i < |entries| :: entries[i].country == PRIVATE
  {
    seq(|PRIVATE_V4|, i requires 0 <= i < |PRIVATE_V4| => Entry(Subnet(V4(PRIVATE_V4[i].0), PRIVATE_V4[i].1), PRIVATE))
    + seq(|PRIVATE_V6|, i requires 0 <= i < |PRIVATE_V6| => Entry(Subnet(V6(PRIVATE_V6[i].0), PRIVATE_V6[i].1), PRIVATE))
  }

  /** A line of a country file: without a slash the prefix is 128, which fits IPv6 only. */
  function ParseLine(e: Env, text: string): Option<Cidr> {
    var ip := match SplitOnce(text, '/') case None => text case Some(parts) => parts.0;
    var prefix := match SplitOnce(text, '/') case None => Some(128) case Some(parts) => ParseUnsigned(parts.1, MAX_USIZE);
    match (e.parseIp(ip), prefix)
    case (Some(net), Some(p)) => if p <= net.Width() then Some(Subnet(net, p)) else None
    case _ => None
  }

  /** An address, a slash and a prefix length that its family admits; without a slash an IPv6 address alone. */
  lemma LineMeans(e: Env, address: string, prefix: nat)
    requires '/' !in address
    ensures ParseLine(e, address + "/" + Decimal(prefix)) ==
            match e.parseIp(address)
            case None => None
            case Some(net) => if prefix <= net.Width() then Some(Subnet(net, prefix)) else None
    ensures ParseLine(e, address) ==
            match e.parseIp(address)
            case None => None
            case Some(net) => if net.V6? then Some(Subnet(net, 128)) else None
  {
    SplitOnceMeans(address, '/', "", "");
    assert address + "/" + Decimal(prefix) == address + ['/'] + Decimal(prefix);
    SplitOnceMeans(address + "/" + Decimal(prefix), '/', address, Decimal(prefix));
    ParseUnsignedMeans(prefix, MAX_USIZE);
    hide Decimal, SplitOnce, ParseUnsigned;
  }

  /** The entries of a file: blank lines, comments and lines that do not parse are skipped. */
  function FileEntries(e: Env, country: string, lines: seq<string>): (entries: seq<Entry>)
    ensures forall i | 0 <= i < |entries| :: entries[i].country == country
  {
    if lines == [] then []
    else
      var line := Trim(lines[|lines| - 1]);
      FileEntries(e, country, lines[..|lines| - 1])
      + if line == "" || line[0] == '#' || ParseLine(e, line) == None then []
        else [Entry(ParseLine(e, line).value, country)]
  }

  /** All country files of a directory, in the order it lists them, as file stem and lines. */
  function DirEntries(e: Env, files: seq<(string, seq<string>)>): seq<Entry> {
    if files == [] then []
    else
      var last := files[|files| - 1];
      DirEntries(e, files[..|files| - 1]) + FileEntries(e, Upper(last.0), last.1)
  }

  // ---------- What a lookup means ----------

  /** Entry `i` names the country of `ip`: the longest block around it, the last such listed. */
  ghost predicate Names(entries: seq<Entry>, ip: Ip, i: nat) {
    && i < |entries| && InBlock(ip, entries[i].cidr)
    && forall j | 0 <= j < |entries| && j != i && InBlock(ip, entries[j].cidr) ::
         entries[j].cidr.prefix < entries[i].cidr.prefix || (entries[j].cidr.prefix == entries[i].cidr.prefix && j < i)
  }

  ghost predicate Covered(entries: seq<Entry>, ip: Ip) {
    exists j | 0 <= j < |entries| :: InBlock(ip, entries[j].cidr)
  }

  function CountryOf(entries: seq<Entry>, ip: Ip): Option<string>
  {
    Longest(Stored(Writes(entries, ip.V4?)), Bits(ip.Octets()))
  }

  lemma {:induction false} CountryIsNamed(entries: seq<Entry>, ip: Ip) returns (i: nat)
    ensures var m := Stored(Writes(entries, ip.V4?));
            var n := LongestAt(m, Bits(ip.Octets()));
            if n.None? then !Covered(entries, ip) && CountryOf(entries, ip) == None
            else Names(entries, ip, i) && n == Some(entries[i].cidr.prefix)
                 && CountryOf(entries, ip) == Some(entries[i].country)
    decreases |entries|
  {
    i := 0;
    var bits := Bits(ip.Octets());
    if entries == [] {
      NothingStored<BitTrie.Bit, string>(bits);
    } else {
      var front, last := entries[..|entries| - 1], entries[|entries| - 1];
      i := CountryIsNamed(front, ip);
      StoredStep(entries, ip);
      KeyIsBlock(ip, last.cidr);
      i := NamesStep(entries, ip, i);
    }
  }

  lemma StoredStep(entries: seq<Entry>, ip: Ip)
    requires entries != []
    ensures var last := entries[|entries| - 1];
            var m := Stored(Writes(entries[..|entries| - 1], ip.V4?));
            Stored(Writes(entries, ip.V4?))
            == if last.cidr.net.V4? == ip.V4? then m[CidrKey(last.cidr) := last.country] else m
  {
    hide CidrKey;
    var front, last := entries[..|entries| - 1], entries[|entries| - 1];
    var ws := Writes(front, ip.V4?);
    if last.cidr.net.V4? == ip.V4? {
      assert (ws + [(CidrKey(last.cidr), last.country)])[..|ws|] == ws;
    } else {
      assert ws + [] == ws;
    }
  }

  lemma NamesStep(entries: seq<Entry>, ip: Ip, before: nat) returns (i: nat)
    requires entries != []
    requires var front, last := entries[..|entries| - 1], entries[|entries| - 1];
             var m := Stored(Writes(front, ip.V4?));
             var n := LongestAt(m, Bits(ip.Octets()));
             && (if n.None? then !Covered(front, ip)
                 else Names(front, ip, before) && n == Some(front[before].cidr.prefix)
                      && Longest(m, Bits(ip.Octets())) == Some(front[before].country))
             && (InBlock(ip, last.cidr) <==> ip.V4? == last.cidr.net.V4? && CidrKey(last.cidr) <= Bits(ip.Octets()))
             && Stored(Writes(entries, ip.V4?))
                == if last.cidr.net.V4? == ip.V4? then m[CidrKey(last.cidr) := last.country] else m
    ensures var m := Stored(Writes(entries, ip.V4?));
            var n := LongestAt(m, Bits(ip.Octets()));
            if n.None? then !Covered(entries, ip)
            else Names(entries, ip, i) && n == Some(entries[i].cidr.prefix)
                 && Longest(m, Bits(ip.Octets())) == Some(entries[i].country)
  {
    hide Bits, CidrKey, InBlock, Stored, Writes, Longest, LongestAt;
    var front, last := entries[..|entries| - 1], entries[|entries| - 1];
    var m, bits, key := Stored(Writes(front, ip.V4?)), Bits(ip.Octets()), CidrKey(last.cidr);
    i := before;
    if InBlock(ip, last.cidr) {
      LongestAfterStore(m, bits, key, last.country);
      if LongestAt(m, bits).None? || LongestAt(m, bits).value <= |key| {
        i := |front|;
      }
    } else if last.cidr.net.V4? == ip.V4? {
      LongestIgnoresOthers(m, bits, key, last.country);
    }
    assert forall j | 0 <= j < |front| :: front[j] == entries[j];
  }

  /** A country is the one named by the longest block around the address, the last such listed. */
  lemma CountryIsLongestBlock(entries: seq<Entry>, ip: Ip, country: string)
    ensures CountryOf(entries, ip) == Some(country) <==>
            exists i: nat :: Names(entries, ip, i) && entries[i].country == country
    ensures CountryOf(entries, ip) == None <==> !Covered(entries, ip)
  {
    var i := CountryIsNamed(entries, ip);
    hide CountryOf, InBlock, Stored, Writes, LongestAt, Bits;
    if j: nat :| Names(entries, ip, j) && entries[j].country == country {
      assert Covered(entries, ip) && i == j;
    }
  }

  // ---------- The built-in private ranges ----------

  ghost predicate IsPrivate(ip: Ip) {
    Covered(PrivateEntries(), ip)
  }

  /** With no country files, exactly the built-in ranges have a country, and it is PRIVATE. */
  lemma PrivateRanges(ip: Ip)
    ensures CountryOf(PrivateEntries(), ip) == if IsPrivate(ip) then Some(PRIVATE) else None
  {
    CountryIsLongestBlock(PrivateEntries(), ip, PRIVATE);
    var i := CountryIsNamed(PrivateEntries(), ip);
    hide CountryOf, InBlock, Stored, Writes, LongestAt, Bits, PrivateEntries;
  }

  /** The ranges by their octets. */
  predicate PrivateOctets(ip: Ip) {
    match ip
    case V4(o) =>
      || o[0] == 0 || o[0] == 10 || o[0] == 127 || 224 <= o[0] <= 239
      || (o[0] == 100 && 64 <= o[1] <= 127) || (o[0] == 169 && o[1] == 254)
      || (o[0] == 172 && 16 <= o[1] <= 31) || (o[0] == 192 && o[1] == 168)
    case V6(o) =>
      || (o[15] == 1 && forall k | 0 <= k < 15 :: o[k] == 0)
      || o[0] == 0xfc || o[0] == 0xfd || (o[0] == 0xfe && 0x80 <= o[1] <= 0xbf)
  }

  /** The `j`th built-in range by octets. */
  predicate InRange(ip: Ip, j: nat) {
    match ip
    case V4(o) =>
      || (j == 0 && o[0] == 0) || (j == 1 && o[0] == 10) || (j == 2 && o[0] == 100 && 64 <= o[1] <= 127)
      || (j == 3 && o[0] == 127) || (j == 4 && o[0] == 169 && o[1] == 254)
      || (j == 5 && o[0] == 172 && 16 <= o[1] <= 31) || (j == 6 && o[0] == 192 && o[1] == 168)
      || (j == 7 && 224 <= o[0] <= 239)
    case V6(o) =>
      || (j == 8 && o == [0, 0, 0, 0, 0, 0, 0, 0, 0, 0, 0, 0, 0, 0, 0, 1]) || (j == 9 && (o[0] == 0xfc || o[0] == 0xfd))
      || (j == 10 && o[0] == 0xfe && 0x80 <= o[1] <= 0xbf)
  }

  /** The cuts of the first two octets that the ranges make. */
  lemma Cuts(a: Octet, b: Octet)
    ensures var h := a as int * 256 + b as int;
            && h / 256 == a as int
            && (h / 64 == 401 <==> a == 100 && 64 <= b <= 127)
            && (h == 43518 <==> a == 169 && b == 254) && (h == 49320 <==> a == 192 && b == 168)
            && (h / 16 == 2753 <==> a == 172 && 16 <= b <= 31)
            && (h / 4096 == 14 <==> 224 <= a <= 239)
            && (h / 512 == 126 <==> a == 0xfc || a == 0xfd)
            && (h / 64 == 1018 <==> a == 0xfe && 0x80 <= b <= 0xbf)
  {
  }

  /** The head of each V4 range and the size of its cut. */
  function V4Head(j: nat): (nat, nat)
    requires j < 8
  {
    match j
    case 0 => (0, 256)
    case 1 => (2560, 256)
    case 2 => (25664, 64)
    case 3 => (32512, 256)
    case 4 => (43518, 1)
    case 5 => (44048, 16)
    case 6 => (49320, 1)
    case _ => (57344, 4096)
  }

  lemma V4HeadIs(j: nat)
    requires j < 8
    ensures PRIVATE_V4[j].1 <= 16 && (Head(PRIVATE_V4[j].0), Pow2(16 - PRIVATE_V4[j].1)) == V4Head(j)
  {
    PowersOfRanges();
    hide Pow2;
  }

  lemma HeadInRange(o: FourOctets, j: nat)
    requires j < 8
    ensures V4Head(j).1 > 0
    ensures Head(o) / V4Head(j).1 == V4Head(j).0 / V4Head(j).1 <==> InRange(V4(o), j)
  {
    Cuts(o[0], o[1]);
  }

  lemma BlockOfHead(ip: Ip, net: FourOctets, prefix: nat, j: nat)
    requires j < 8 && prefix <= 16 && (Head(net), Pow2(16 - prefix)) == V4Head(j)
    ensures InBlock(ip, Subnet(V4(net), prefix)) <==> InRange(ip, j)
  {
    hide InBlock, Number, Pow2, Head, V4Head, InRange;
    ShortBlock(ip, Subnet(V4(net), prefix));
    if ip.V4? {
      HeadInRange(ip.v4, j);
    } else {
      V6IsElsewhere(ip, j);
    }
  }

  lemma V4Range(ip: Ip, j: nat)
    requires j < 8
    ensures InBlock(ip, Subnet(V4(PRIVATE_V4[j].0), PRIVATE_V4[j].1)) <==> InRange(ip, j)
  {
    V4HeadIs(j);
    BlockOfHead(ip, PRIVATE_V4[j].0, PRIVATE_V4[j].1, j);
    hide InBlock, Number, Pow2, Head, V4Head, InRange;
  }

  lemma V6IsElsewhere(ip: Ip, j: nat)
    requires ip.V6? && j < 8
    ensures !InRange(ip, j)
  {
  }

  lemma V6Block(ip: Ip, net: SixteenOctets, prefix: nat, head: nat, cut: nat)
    requires prefix <= 16 && Head(net) == head && Pow2(16 - prefix) == cut
    ensures cut > 0 && (InBlock(ip, Subnet(V6(net), prefix)) <==> ip.V6? && Head(ip.Octets()) / cut == head / cut)
  {
    ShortBlock(ip, Subnet(V6(net), prefix));
    hide InBlock, Number, Pow2, Head;
  }

  lemma V6Range(ip: Ip, j: nat)
    requires j < 3
    ensures InBlock(ip, Subnet(V6(PRIVATE_V6[j].0), PRIVATE_V6[j].1)) <==> InRange(ip, 8 + j)
  {
    hide InBlock, Number;
    if j == 0 {
      FullBlock(ip, Subnet(V6(PRIVATE_V6[j].0), PRIVATE_V6[j].1));
    } else {
      PowersOfRanges();
      hide Pow2;
      V6Block(ip, PRIVATE_V6[j].0, PRIVATE_V6[j].1, if j == 1 then 64512 else 65152, if j == 1 then 512 else 64);
      if ip.V6? {
        Cuts(ip.v6[0], ip.v6[1]);
      }
    }
  }

  lemma PowersOfRanges()
    ensures Pow2(0) == 1 && Pow2(4) == 16 && Pow2(6) == 64 && Pow2(8) == 256 && Pow2(9) == 512 && Pow2(12) == 4096
  {
  }

  lemma RangeIsBlock(ip: Ip, j: nat)
    requires j < 11
    ensures |PrivateEntries()| == 11 && (InBlock(ip, PrivateEntries()[j].cidr) <==> InRange(ip, j))
  {
    hide InBlock, InRange;
    if j < 8 {
      V4Range(ip, j);
    } else {
      V6Range(ip, j - 8);
    }
  }

  /** Which addresses are private: 0/8, 10/8, 100.64/10, 127/8, 169.254/16, 172.16/12, 192.168/16, 224/4; ::1, fc00::/7
      and fe80::/10. */
  lemma PrivateMeans(ip: Ip)
    ensures IsPrivate(ip) <==> PrivateOctets(ip)
  {
    forall j | 0 <= j < 11 ensures |PrivateEntries()| == 11 && (InBlock(ip, PrivateEntries()[j].cidr) <==> InRange(ip, j)) {
      RangeIsBlock(ip, j);
    }
    hide PrivateEntries, InBlock;
    assert PrivateOctets(ip) <==> exists j | 0 <= j < 11 :: InRange(ip, j) by { RangesTogether(ip); }
  }

  lemma RangesTogether(ip: Ip)
    ensures PrivateOctets(ip) <==> exists j | 0 <= j < 11 :: InRange(ip, j)
  {
    assert PrivateOctets(ip) <==>
      || InRange(ip, 0) || InRange(ip, 1) || InRange(ip, 2) || InRange(ip, 3) || InRange(ip, 4) || InRange(ip, 5)
      || InRange(ip, 6) || InRange(ip, 7) || InRange(ip, 8) || InRange(ip, 9) || InRange(ip, 10);
  }

  /** A loaded block around the address that is at least as long as every built-in one around it. */
  ghost predicate Overridden(loaded: seq<Entry>, ip: Ip) {
    exists j | 0 <= j < |loaded| :: InBlock(ip, loaded[j].cidr) && Outdoes(loaded[j], ip)
  }

  ghost predicate Outdoes(entry: Entry, ip: Ip) {
    forall k | 0 <= k < |PrivateEntries()| && InBlock(ip, PrivateEntries()[k].cidr) ::
      PrivateEntries()[k].cidr.prefix <= entry.cidr.prefix
  }

  /** A private address stays PRIVATE exactly when no country file lists a block around it at least as
      long as the built-in one; a file that lists private space takes it away. */
  lemma PrivateUnlessOverridden(loaded: seq<Entry>, ip: Ip)
    requires IsPrivate(ip) && forall j | 0 <= j < |loaded| :: loaded[j].country != PRIVATE
    ensures CountryOf(PrivateEntries() + loaded, ip) == Some(PRIVATE) <==> !Overridden(loaded, ip)
  {
    var all, p := PrivateEntries() + loaded, PrivateEntries();
    var i := CountryIsNamed(all, ip);
    hide CountryOf, InBlock, Stored, Writes, LongestAt, Bits, PrivateEntries;
    var k :| 0 <= k < |p| && InBlock(ip, p[k].cidr);
    assert all[k] == p[k];
    assert Covered(all, ip);
    assert forall j | 0 <= j < |loaded| :: all[|p| + j] == loaded[j];
    assert forall k | 0 <= k < |p| :: all[k] == p[k];
    if i >= |p| {
      assert Outdoes(loaded[i - |p|], ip);
    }
  }

  // ---------- The table itself ----------

  class GeoTable {
    const v4: BitTrie.BitTrie<string>
    const v6: BitTrie.BitTrie<string>
    /** Everything inserted so far, oldest first. */
    ghost var entries: seq<Entry>

    ghost function Repr(): set<object>
      reads this, v4, v6
    {
      {this, v4, v6} + v4.at.Values + v6.at.Values
    }

    ghost predicate Valid()
      reads this, v4, v6, v4.at.Values, v6.at.Values
    {
      && v4 != v6 && v4.at.Values !! v6.at.Values && v4.Valid() && v6.Valid()
      && v4.Contents() == Stored(Writes(entries, true))
      && v6.Contents() == Stored(Writes(entries, false))
    }

    constructor Empty()
      ensures Valid() && fresh(Repr()) && entries == []
    {
      v4 := new BitTrie.BitTrie<string>();
      v6 := new BitTrie.BitTrie<string>();
      entries := [];
      new;
      hide Writes, Stored, BitTrie.BitTrie.Valid, BitTrie.BitTrie.Contents;
      WritesOfNone();
    }

    method Put(c: Cidr, country: string)
      requires Valid()
      modifies Repr()
      ensures Valid() && fresh(Repr() - old(Repr())) && entries == old(entries) + [Entry(c, country)]
    {
      hide Writes, Stored, BitTrie.BitTrie.Valid, BitTrie.BitTrie.Contents, CidrKey;
      WritesPush(entries, Entry(c, country), true);
      WritesPush(entries, Entry(c, country), false);
      match c.net {
        case V4(o) => v4.Insert(Bits(o), c.prefix, country);
        case V6(o) => v6.Insert(Bits(o), c.prefix, country);
      }
      entries := entries + [Entry(c, country)];
    }

    /** The private and special ranges of both families. */
    method PutPrivateV4()
      requires Valid() && entries == []
      modifies Repr()
      ensures Valid() && fresh(Repr() - old(Repr())) && entries == PrivateEntries()[..|PRIVATE_V4|]
    {
      hide Writes, Stored, BitTrie.BitTrie.Valid, BitTrie.BitTrie.Contents, CidrKey, PrivateEntries;
      for i := 0 to |PRIVATE_V4|
        invariant Valid() && fresh(Repr() - old(Repr())) && entries == PrivateEntries()[..i]
      {
        PrivateV4At(i);
        Put(Subnet(V4(PRIVATE_V4[i].0), PRIVATE_V4[i].1), PRIVATE);
      }
    }

    method PutPrivateV6()
      requires Valid() && entries == PrivateEntries()[..|PRIVATE_V4|]
      modifies Repr()
      ensures Valid() && fresh(Repr() - old(Repr())) && entries == PrivateEntries()
    {
      hide Writes, Stored, BitTrie.BitTrie.Valid, BitTrie.BitTrie.Contents, CidrKey, PrivateEntries;
      for i := 0 to |PRIVATE_V6|
        invariant Valid() && fresh(Repr() - old(Repr())) && entries == PrivateEntries()[..|PRIVATE_V4| + i]
      {
        PrivateV6At(i);
        Put(Subnet(V6(PRIVATE_V6[i].0), PRIVATE_V6[i].1), PRIVATE);
      }
    }

    static method WithPrivate() returns (g: GeoTable)
      ensures fresh(g) && fresh(g.Repr()) && g.Valid() && g.entries == PrivateEntries()
    {
      hide PrivateEntries, GeoTable.Valid;
      g := new GeoTable.Empty();
      assert g.entries == PrivateEntries()[..0];
      g.PutPrivateV4();
      g.PutPrivateV6();
    }

    /** One line of a country file or of a caller; false when it does not parse. */
    method InsertCidr(e: Env, text: string, country: string) returns (ok: bool)
      requires Valid()
      modifies Repr()
      ensures Valid() && fresh(Repr() - old(Repr()))
      ensures ok <==> ParseLine(e, text).Some?
      ensures entries == old(entries) + if ok then [Entry(ParseLine(e, text).value, country)] else []
    {
      hide Writes, Stored, BitTrie.BitTrie.Valid, BitTrie.BitTrie.Contents, SplitOnce, ParseUnsigned;
      var ipPart, prefix := text, 128;
      var parts := SplitOnce(text, '/');
      if parts.Some? {
        var p := ParseUnsigned(parts.value.1, MAX_USIZE);
        if p.None? {
          return false;
        }
        ipPart, prefix := parts.value.0, p.value;
      }
      var ip := e.parseIp(ipPart);
      if ip.None? || prefix > ip.value.Width() {
        return false;
      }
      Put(Subnet(ip.value, prefix), country);
      ok := true;
    }

    method LoadFile(e: Env, country: string, lines: seq<string>)
      requires Valid()
      modifies Repr()
      ensures Valid() && fresh(Repr() - old(Repr()))
      ensures entries == old(entries) + FileEntries(e, country, lines)
    {
      hide Writes, Stored, BitTrie.BitTrie.Valid, BitTrie.BitTrie.Contents, ParseLine, Trim;
      for i := 0 to |lines|
        invariant Valid() && fresh(Repr() - old(Repr()))
        invariant entries == old(entries) + FileEntries(e, country, lines[..i])
      {
        assert lines[..i + 1][..i] == lines[..i];
        var line := Trim(lines[i]);
        if line != "" && line[0] != '#' {
          var _ := InsertCidr(e, line, country);
        }
      }
      assert lines[..|lines|] == lines;
    }

    /** Every country file, in directory order; nothing in them is fatal. */
    method LoadDir(e: Env, files: seq<(string, seq<string>)>)
      requires Valid()
      modifies Repr()
      ensures Valid() && fresh(Repr() - old(Repr()))
      ensures entries == old(entries) + DirEntries(e, files)
    {
      hide Writes, Stored, BitTrie.BitTrie.Valid, BitTrie.BitTrie.Contents, FileEntries;
      for i := 0 to |files|
        invariant Valid() && fresh(Repr() - old(Repr()))
        invariant entries == old(entries) + DirEntries(e, files[..i])
      {
        assert files[..i + 1][..i] == files[..i];
        LoadFile(e, Upper(files[i].0), files[i].1);
      }
      assert files[..|files|] == files;
    }

    method Country(ip: Ip) returns (country: Option<string>)
      requires Valid()
      ensures country == CountryOf(entries, ip)
    {
      match ip {
        case V4(o) => country := v4.Lookup(Bits(o));
        case V6(o) => country := v6.Lookup(Bits(o));
      }
    }
  }

  lemma WritesOfNone()
    ensures forall v4 :: Writes([], v4) == [] && Stored(Writes([], v4)) == map[]
  {
  }

  lemma PrivateV4At(i: nat)
    requires i < |PRIVATE_V4|
    ensures PrivateEntries()[..i + 1]
         == PrivateEntries()[..i] + [Entry(Subnet(V4(PRIVATE_V4[i].0), PRIVATE_V4[i].1), PRIVATE)]
  {
  }

  lemma PrivateV6At(i: nat)
    requires i < |PRIVATE_V6|
    ensures PrivateEntries()[..|PRIVATE_V4| + i + 1]
         == PrivateEntries()[..|PRIVATE_V4| + i] + [Entry(Subnet(V6(PRIVATE_V6[i].0), PRIVATE_V6[i].1), PRIVATE)]
  {
  }

  lemma WritesPush(entries: seq<Entry>, entry: Entry, v4: bool)
    ensures var key := Bits(entry.cidr.net.Octets())[..entry.cidr.prefix];
            Stored(Writes(entries + [entry], v4))
            == if entry.cidr.net.V4? == v4 then Stored(Writes(entries, v4))[key := entry.country]
               else Stored(Writes(entries, v4))
  {
    StoredStep(entries + [entry], if v4 then V4([0, 0, 0, 0]) else V6(seq(16, _ => 0)));
    assert (entries + [entry])[..|entries|] == entries;
  }
}
