/** The composite rule index in the form it has in memory: tries, hash maps and ordered lists,
    filled in place by one pass over the rules. */
module RuleIndex {
  import opened Prelude
  import opened Text
  import opened PrefixMap
  import opened Address
  import opened DomainLabels
  import opened Rules
  import BitTrie
  import DomainTrie
  import T = RuleTables

  class IpIndex {
    const v4: BitTrie.BitTrie<T.M>
    const v6: BitTrie.BitTrie<T.M>

    ghost function Repr(): set<object>
      reads this, v4, v6
    {
      {this, v4, v6} + v4.at.Values + v6.at.Values
    }

    ghost predicate Valid()
      reads this, v4, v6, v4.at.Values, v6.at.Values
    {
      && v4 != v6 && v4.at.Values !! v6.at.Values
      && v4.Valid() && v6.Valid()
    }

    constructor ()
      ensures Valid() && fresh(Repr())
      ensures v4.Contents() == map[] && v6.Contents() == map[]
    {
      v4 := new BitTrie.BitTrie<T.M>();
      v6 := new BitTrie.BitTrie<T.M>();
      new;
      hide BitTrie.BitTrie.Valid, BitTrie.BitTrie.Contents;
    }

    method InsertCidr(e: Env, cidr: string, m: T.M) returns (ok: bool)
      requires Valid()
      modifies Repr()
      ensures Valid() && fresh(Repr() - old(Repr()))
      ensures match ParseCidr(e, cidr)
              case None => !ok && v4.Contents() == old(v4.Contents()) && v6.Contents() == old(v6.Contents())
              case Some(c) =>
                && ok
                && v4.Contents() == (if c.net.V4? then old(v4.Contents())[CidrKey(c) := m] else old(v4.Contents()))
                && v6.Contents() == (if c.net.V4? then old(v6.Contents()) else old(v6.Contents())[CidrKey(c) := m])
    {
      hide Trim, ParseUnsigned, SplitOnce, Bits;
      var ipPart, prefix := cidr, 0xFFFF_FFFF;
      var parts := SplitOnce(cidr, '/');
      if parts.Some? {
        var p := ParseUnsigned(parts.value.1, MAX_USIZE);
        if p.None? {
          return false;
        }
        ipPart, prefix := parts.value.0, p.value;
      }
      var ip := e.parseIp(Trim(ipPart));
      if ip.None? || prefix > ip.value.Width() {
        return false;
      }
      match ip.value {
        case V4(o) => v4.Insert(Bits(o), prefix, m);
        case V6(o) => v6.Insert(Bits(o), prefix, m);
      }
      ok := true;
    }

    method Lookup(ip: Ip) returns (best: Option<T.M>)
      requires Valid()
      ensures best == Longest(if ip.V4? then v4.Contents() else v6.Contents(), Bits(ip.Octets()))
    {
      match ip
      case V4(o) => best := v4.Lookup(Bits(o));
      case V6(o) => best := v6.Lookup(Bits(o));
    }
  }

  class RuleIndex {
    const suffix: DomainTrie.DomainTrie<T.M>
    var exact: map<string, T.M>
    var keyword: seq<(string, T.M)>
    var regex: seq<(string, T.M)>
    const cidr: IpIndex
    var process: map<string, T.M>
    var portExact: map<nat, T.M>
    var portRange: seq<(nat, nat, T.M)>
    var protocol: map<string, T.M>
    var geoip: map<string, T.M>

    ghost function Repr(): set<object>
      reads this, cidr, cidr.v4, cidr.v6
    {
      {this, suffix} + cidr.Repr()
    }

    ghost predicate Valid()
      reads this, suffix, cidr, cidr.v4, cidr.v6, cidr.v4.at.Values, cidr.v6.at.Values
    {
      suffix.Valid() && cidr.Valid()
    }

    ghost function View(): T.Tables
      requires Valid()
      reads this, suffix, cidr, cidr.v4, cidr.v6, cidr.v4.at.Values, cidr.v6.at.Values
    {
      T.Tables(suffix.Contents(), exact, keyword, regex, cidr.v4.Contents(), cidr.v6.Contents(),
               process, portExact, portRange, protocol, geoip)
    }

    constructor ()
      ensures Valid() && fresh(Repr()) && View() == T.EMPTY
    {
      exact, keyword, regex, process := map[], [], [], map[];
      portExact, portRange, protocol, geoip := map[], [], map[], map[];
      suffix := new DomainTrie.DomainTrie<T.M>();
      cidr := new IpIndex();
      new;
      hide DomainTrie.Shape, DomainTrie.ContentsOf, BitTrie.BitTrie.Valid, BitTrie.BitTrie.Contents;
    }

    /** The kinds kept in a map or a list of the index itself. */
    method AddKeyed(r: Rule)
      requires Valid() && (r.kind.Domain? || r.kind.DomainKeyword? || r.kind.Process? || r.kind.Protocol? || r.kind.Geoip?)
      modifies this
      ensures Valid() && forall e :: T.Add(e, old(View()), r) == Some(View())
    {
      hide Trim, Lower, Upper;
      hide DomainTrie.Shape, DomainTrie.ContentsOf, BitTrie.BitTrie.Valid, BitTrie.BitTrie.Contents;
      var m, v := T.FromRule(r), Trim(r.value);
      match r.kind {
        case Domain => exact := exact[Lower(v) := m];
        case DomainKeyword => keyword := keyword + [(Lower(v), m)];
        case Process => process := process[Lower(v) := m];
        case Protocol => protocol := protocol[Lower(v) := m];
        case Geoip => geoip := geoip[Upper(v) := m];
      }
    }

    method AddPort(r: Rule) returns (ok: bool)
      requires Valid() && r.kind.Port?
      modifies this
      ensures Valid() && forall e :: T.Add(e, old(View()), r) == if ok then Some(View()) else None
    {
      hide Trim, ParsePorts;
      hide DomainTrie.Shape, DomainTrie.ContentsOf, BitTrie.BitTrie.Valid, BitTrie.BitTrie.Contents;
      var m, v := T.FromRule(r), Trim(r.value);
      var ports := ParsePorts(v);
      if ports.None? {
        return false;
      }
      ok := true;
      match ports.value {
        case Exact(n) => portExact := portExact[n := m];
        case Range(lo, hi) => portRange := portRange + [(lo, hi, m)];
      }
    }

    method AddCidr(e: Env, r: Rule) returns (ok: bool)
      requires Valid() && r.kind.IpCidr?
      modifies cidr.Repr()
      ensures Valid() && fresh(cidr.Repr() - old(cidr.Repr()))
      ensures T.Add(e, old(View()), r).Some? <==> ok
      ensures ok ==> T.Add(e, old(View()), r) == Some(View())
    {
      hide T.Add, Trim, ParseCidr, CidrKey, T.FromRule;
      hide DomainTrie.Shape, DomainTrie.ContentsOf, BitTrie.BitTrie.Valid, BitTrie.BitTrie.Contents;
      ghost var t := View();
      ok := cidr.InsertCidr(e, Trim(r.value), T.FromRule(r));
      CidrTables(e, t, View(), r);
    }

    /** One enabled rule of the build loop; false is the error that ends it. */
    method Add(e: Env, r: Rule) returns (ok: bool)
      requires Valid()
      modifies Repr()
      ensures Valid() && fresh(Repr() - old(Repr()))
      ensures T.Add(e, old(View()), r).Some? <==> ok
      ensures ok ==> T.Add(e, old(View()), r) == Some(View())
    {
      hide Trim, Labels, ParseCidr, ParsePorts;
      hide DomainTrie.Shape, DomainTrie.ContentsOf, BitTrie.BitTrie.Valid, BitTrie.BitTrie.Contents;
      ok := true;
      if r.kind.IpCidr? {
        ok := AddCidr(e, r);
      } else if r.kind.Port? {
        ok := AddPort(r);
      } else if r.kind.DomainSuffix? {
        suffix.Insert(Trim(r.value), T.FromRule(r));
      } else if r.kind.DomainRegex? {
        if !e.compiles(Trim(r.value)) {
          return false;
        }
        regex := regex + [(Trim(r.value), T.FromRule(r))];
      } else {
        AddKeyed(r);
      }
    }

    /** One pass over the enabled rules; null stands for the configuration error. */
    static method Build(e: Env, rules: seq<Rule>) returns (idx: RuleIndex?)
      ensures idx == null <==> T.Build(e, rules) == None
      ensures idx != null ==> fresh(idx) && fresh(idx.Repr()) && idx.Valid() && T.Build(e, rules) == Some(idx.View())
    {
      hide T.Add, T.Build, DomainTrie.Shape, DomainTrie.ContentsOf, BitTrie.BitTrie.Valid, BitTrie.BitTrie.Contents;
      var index := new RuleIndex();
      BuildNothing(e, rules);
      var i := 0;
      while i < |rules|
        invariant 0 <= i <= |rules|
        invariant index.Valid() && fresh(index) && fresh(index.Repr())
        invariant T.Build(e, rules[..i]) == Some(index.View())
      {
        BuildOneMore(e, rules, i);
        if rules[i].enabled {
          var ok := index.Add(e, rules[i]);
          if !ok {
            FailsForGood(e, rules, i + 1);
            return null;
          }
        }
        i := i + 1;
      }
      assert rules[..|rules|] == rules;
      return index;
    }

    /** The keyword loop of `MatchDomain`; `seen` are the answers folded into `current`. */
    method FoldKeywords(lower: string, ghost seen: seq<T.M>, current: Option<T.M>) returns (best: Option<T.M>)
      requires current == T.FirstMax(seen)
      ensures best == T.FirstMax(seen + T.KeywordHits(keyword, lower))
    {
      hide T.Better, T.FirstMax, Contains;
      best := current;
      ghost var all := seen;
      assert seen + [] == seen;
      for i := 0 to |keyword|
        invariant best == T.FirstMax(all) && all == seen + T.KeywordHits(keyword[..i], lower)
      {
        assert keyword[..i + 1][..i] == keyword[..i];
        if Contains(lower, keyword[i].0) {
          FirstMaxPush(all, keyword[i].1);
          all := all + [keyword[i].1];
          best := T.Better(best, keyword[i].1);
        }
      }
      assert keyword[..|keyword|] == keyword;
    }

    /** The regex loop of `MatchDomain`. */
    method FoldRegexes(e: Env, name: string, ghost seen: seq<T.M>, current: Option<T.M>) returns (best: Option<T.M>)
      requires current == T.FirstMax(seen)
      ensures best == T.FirstMax(seen + T.RegexHits(e, regex, name))
    {
      hide T.Better, T.FirstMax;
      best := current;
      ghost var all := seen;
      assert seen + [] == seen;
      for i := 0 to |regex|
        invariant best == T.FirstMax(all) && all == seen + T.RegexHits(e, regex[..i], name)
      {
        assert regex[..i + 1][..i] == regex[..i];
        if e.isMatch(regex[i].0, name) {
          FirstMaxPush(all, regex[i].1);
          all := all + [regex[i].1];
          best := T.Better(best, regex[i].1);
        }
      }
      assert regex[..|regex|] == regex;
    }

    /** The best of the exact, suffix, keyword and regex answers, in that order. */
    method MatchDomain(e: Env, name: string) returns (best: Option<T.M>)
      requires Valid()
      ensures best == T.FirstMax(DomainAnswers(e, View(), name))
    {
      hide T.Better, T.FirstMax, T.KeywordHits, T.RegexHits;
      hide DomainTrie.Shape, DomainTrie.ContentsOf, BitTrie.BitTrie.Valid, BitTrie.BitTrie.Contents;
      var lower := Lower(name);
      best := None;
      ghost var seen: seq<T.M> := [];
      FirstMaxNone();
      if lower in exact {
        FirstMaxPush(seen, exact[lower]);
        seen := seen + [exact[lower]];
        best := T.Better(best, exact[lower]);
      }
      var m := suffix.Lookup(name);
      if m.Some? {
        FirstMaxPush(seen, m.value);
        seen := seen + [m.value];
        best := T.Better(best, m.value);
      }
      assert seen == T.ToSeq(T.At(exact, lower)) + T.ToSeq(Longest(suffix.Contents(), Labels(name)));
      best := FoldKeywords(lower, seen, best);
      best := FoldRegexes(e, name, seen + T.KeywordHits(keyword, lower), best);
    }

    method MatchIp(ip: Ip) returns (m: Option<T.M>)
      requires Valid()
      ensures m == T.IpAnswer(View(), ip)
    {
      m := cidr.Lookup(ip);
    }

    /** An exact port beats every range; among ranges the first that contains the port. */
    method MatchPort(port: nat) returns (m: Option<T.M>)
      requires Valid()
      ensures m == T.PortAnswer(View(), port)
    {
      hide DomainTrie.Shape, DomainTrie.ContentsOf, BitTrie.BitTrie.Valid, BitTrie.BitTrie.Contents;
      if port in portExact {
        return Some(portExact[port]);
      }
      for i := 0 to |portRange|
        invariant T.FirstRange(portRange, port) == T.FirstRange(portRange[i..], port)
      {
        if portRange[i].0 <= port <= portRange[i].1 {
          return Some(portRange[i].2);
        }
      }
      m := None;
    }

    function MatchProcess(exe: string): Option<T.M>
      reads this
    {
      T.At(process, BaseName(exe))
    }

    function MatchProtocol(proto: string): Option<T.M>
      reads this
    {
      T.At(protocol, Lower(proto))
    }

    function MatchGeoip(country: string): Option<T.M>
      reads this
    {
      T.At(geoip, Upper(country))
    }
  }

  /** What the tables say about a name, in the order of consultation. */
  function DomainAnswers(e: Env, t: T.Tables, name: string): seq<T.M> {
    T.ToSeq(T.At(t.exact, Lower(name))) + T.ToSeq(Longest(t.suffix, Labels(name)))
    + T.KeywordHits(t.keyword, Lower(name)) + T.RegexHits(e, t.regex, name)
  }

  lemma FirstMaxNone()
    ensures T.FirstMax([]) == None
  {
  }

  lemma FirstMaxPush(ms: seq<T.M>, m: T.M)
    ensures T.FirstMax(ms + [m]) == T.Better(T.FirstMax(ms), m)
  {
    assert (ms + [m])[..|ms|] == ms;
  }

  lemma BuildNothing(e: Env, rules: seq<Rule>)
    ensures T.Build(e, rules[..0]) == Some(T.EMPTY)
  {
  }

  lemma BuildOneMore(e: Env, rules: seq<Rule>, i: nat)
    requires i < |rules| && T.Build(e, rules[..i]).Some?
    ensures T.Build(e, rules[..i + 1])
         == var t := T.Build(e, rules[..i]).value; if rules[i].enabled then T.Add(e, t, rules[i]) else Some(t)
  {
    hide T.Add;
    assert rules[..i + 1][..i] == rules[..i];
  }

  /** An error at one rule is an error of the whole build. */
  lemma FailsForGood(e: Env, rules: seq<Rule>, n: nat)
    requires n <= |rules| && T.Build(e, rules[..n]) == None
    ensures T.Build(e, rules) == None
  {
    T.BuildSucceeds(e, rules[..n]);
    T.BuildSucceeds(e, rules);
  }

  lemma CidrTables(e: Env, t: T.Tables, u: T.Tables, r: Rule)
    requires r.kind.IpCidr? && u == t.(v4 := u.v4, v6 := u.v6)
    ensures match ParseCidr(e, Trim(r.value))
            case None => T.Add(e, t, r) == None
            case Some(c) =>
              (T.Add(e, t, r) == Some(u) <==>
                 && u.v4 == (if c.net.V4? then t.v4[CidrKey(c) := T.FromRule(r)] else t.v4)
                 && u.v6 == (if c.net.V4? then t.v6 else t.v6[CidrKey(c) := T.FromRule(r)]))
  {
    hide ParseCidr, Trim, T.FromRule, T.AddCidr;
    if ParseCidr(e, Trim(r.value)).Some? {
      NetTables(t, u, ParseCidr(e, Trim(r.value)).value, T.FromRule(r));
    }
  }

  lemma NetTables(t: T.Tables, u: T.Tables, c: Cidr, m: T.M)
    requires u == t.(v4 := u.v4, v6 := u.v6)
    ensures T.AddCidr(t, c, m) == u <==>
              && u.v4 == (if c.net.V4? then t.v4[CidrKey(c) := m] else t.v4)
              && u.v6 == (if c.net.V4? then t.v6 else t.v6[CidrKey(c) := m])
  {
    hide CidrKey;
  }
}
