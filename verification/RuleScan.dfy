/** The index answers what a scan of the rule list would: for every list and every flow, folding
    the tables' answers finds the rule that `Wins`. */
module RuleScan {
  import opened Prelude
  import opened Text
  import opened PrefixMap
  import opened BitTrie
  import opened Address
  import opened DomainLabels
  import opened Rules
  import opened RuleTables

  type Country = Option<string>

  /** The rules of one kind that have a say, by one pass over the list. */
  function Picks(e: Env, rules: seq<Rule>, k: Kind, f: Flow, c: Country): (ps: seq<nat>)
    ensures forall i | 0 <= i < |ps| :: ps[i] < |rules|
    decreases |rules|
  {
    if rules == [] then []
    else
      var n := |rules| - 1;
      var ps := Picks(e, rules[..n], k, f, c);
      if !Hit(e, rules[n], k, f, c) then ps
      else if Listed(k) then ps + [n]
      else if ps != [] && !Overrides(e, rules[n], rules[ps[0]]) then ps
      else [n]
  }

  function Ms(rules: seq<Rule>, ps: seq<nat>): (ms: seq<M>)
    requires forall i | 0 <= i < |ps| :: ps[i] < |rules|
    ensures |ms| == |ps| && forall i | 0 <= i < |ps| :: ms[i] == FromRule(rules[ps[i]])
  {
    seq(|ps|, i requires 0 <= i < |ps| => FromRule(rules[ps[i]]))
  }

  // ---------- Picks are the candidates ----------

  /** Rules that match, in list order. */
  ghost predicate AreHits(e: Env, rules: seq<Rule>, ps: seq<nat>, k: Kind, f: Flow, c: Country) {
    && (forall i | 0 <= i < |ps| :: ps[i] < |rules| && Hit(e, rules[ps[i]], k, f, c))
    && (forall i, j | 0 <= i < j < |ps| :: ps[i] < ps[j])
  }

  lemma HitsStay(e: Env, rules: seq<Rule>, ps: seq<nat>, k: Kind, f: Flow, c: Country)
    requires rules != [] && AreHits(e, rules[..|rules| - 1], ps, k, f, c)
    ensures AreHits(e, rules, ps, k, f, c)
    ensures Hit(e, rules[|rules| - 1], k, f, c) ==> AreHits(e, rules, ps + [|rules| - 1], k, f, c)
  {
    hide Hit;
    var front := rules[..|rules| - 1];
    assert forall i | 0 <= i < |ps| :: front[ps[i]] == rules[ps[i]];
  }

  lemma {:induction false} PicksAreHits(e: Env, rules: seq<Rule>, k: Kind, f: Flow, c: Country)
    ensures AreHits(e, rules, Picks(e, rules, k, f, c), k, f, c)
    ensures !Listed(k) ==> |Picks(e, rules, k, f, c)| <= 1
    decreases |rules|
  {
    if rules != [] {
      hide Hit, Overrides, AreHits;
      var ps := Picks(e, rules[..|rules| - 1], k, f, c);
      PicksAreHits(e, rules[..|rules| - 1], k, f, c);
      HitsStay(e, rules, ps, k, f, c);
      OneHit(e, rules, k, f, c);
    } else {
      assert Picks(e, rules, k, f, c) == [];
    }
  }

  lemma OneHit(e: Env, rules: seq<Rule>, k: Kind, f: Flow, c: Country)
    requires rules != []
    ensures Hit(e, rules[|rules| - 1], k, f, c) ==> AreHits(e, rules, [|rules| - 1], k, f, c)
  {
    hide Hit;
  }

  lemma {:induction false} ListedPicksEveryHit(e: Env, rules: seq<Rule>, k: Kind, f: Flow, c: Country, i: nat)
    requires Listed(k) && i < |rules| && Hit(e, rules[i], k, f, c)
    ensures i in Picks(e, rules, k, f, c)
    decreases |rules|
  {
    hide Hit;
    if i < |rules| - 1 {
      ListedPicksEveryHit(e, rules[..|rules| - 1], k, f, c, i);
    }
  }

  ghost predicate NoHit(e: Env, rules: seq<Rule>, k: Kind, f: Flow, c: Country) {
    forall j | 0 <= j < |rules| :: !Hit(e, rules[j], k, f, c)
  }

  /** The rule picked so far, if any, shadows every other rule that hits. */
  ghost predicate Dominates(e: Env, rules: seq<Rule>, k: Kind, f: Flow, c: Country, p: nat)
    requires p < |rules|
  {
    forall j | 0 <= j < |rules| && j != p && Hit(e, rules[j], k, f, c) :: Shadows(e, rules, p, j)
  }

  /** A newcomer that takes the leader's place takes the place of everyone the leader shadows. */
  lemma OverridesPass(e: Env, k: Kind, f: Flow, c: Country, newer: Rule, lead: Rule, other: Rule)
    requires !Listed(k) && Hit(e, newer, k, f, c) && Hit(e, lead, k, f, c) && Hit(e, other, k, f, c)
    requires Overrides(e, newer, lead) && (Overrides(e, lead, other) || !Overrides(e, other, lead))
    ensures Overrides(e, newer, other)
  {
  }

  lemma LeaderStays(e: Env, rules: seq<Rule>, k: Kind, f: Flow, c: Country, p: nat)
    requires !Listed(k) && p < |rules| - 1 && Dominates(e, rules[..|rules| - 1], k, f, c, p)
    requires Hit(e, rules[p], k, f, c)
    requires Hit(e, rules[|rules| - 1], k, f, c) ==> !Overrides(e, rules[|rules| - 1], rules[p])
    ensures Dominates(e, rules, k, f, c, p)
  {
    hide Overrides, Matches;
    var front := rules[..|rules| - 1];
    forall j | 0 <= j < |rules| && j != p && Hit(e, rules[j], k, f, c) ensures Shadows(e, rules, p, j) {
      if j < |front| {
        assert Hit(e, front[j], k, f, c) && Shadows(e, front, p, j);
      }
    }
  }

  lemma LeaderFalls(e: Env, rules: seq<Rule>, k: Kind, f: Flow, c: Country, p: nat)
    requires !Listed(k) && p < |rules| - 1 && Dominates(e, rules[..|rules| - 1], k, f, c, p)
    requires Hit(e, rules[p], k, f, c) && Hit(e, rules[|rules| - 1], k, f, c)
    requires Overrides(e, rules[|rules| - 1], rules[p])
    ensures Dominates(e, rules, k, f, c, |rules| - 1)
  {
    hide Overrides, Matches;
    var front := rules[..|rules| - 1];
    var n := |rules| - 1;
    forall j | 0 <= j < n && Hit(e, rules[j], k, f, c) ensures Shadows(e, rules, n, j) {
      if j != p {
        assert Hit(e, front[j], k, f, c) && Shadows(e, front, p, j);
        OverridesPass(e, k, f, c, rules[n], rules[p], rules[j]);
      }
    }
  }

  lemma {:induction false} PickDominates(e: Env, rules: seq<Rule>, k: Kind, f: Flow, c: Country)
    requires !Listed(k)
    ensures var ps := Picks(e, rules, k, f, c);
            if ps == [] then NoHit(e, rules, k, f, c)
            else Dominates(e, rules, k, f, c, ps[0])
    decreases |rules|
  {
    hide Overrides, Hit;
    if rules != [] {
      var n := |rules| - 1;
      var front := rules[..n];
      PickDominates(e, front, k, f, c);
      PicksAreHits(e, front, k, f, c);
      var ps := Picks(e, front, k, f, c);
      if ps == [] {
        FirstLeader(e, rules, k, f, c);
      } else {
        assert Hit(e, rules[ps[0]], k, f, c);
        if Hit(e, rules[n], k, f, c) && Overrides(e, rules[n], rules[ps[0]]) {
          LeaderFalls(e, rules, k, f, c, ps[0]);
        } else {
          LeaderStays(e, rules, k, f, c, ps[0]);
        }
      }
    }
  }

  lemma FirstLeader(e: Env, rules: seq<Rule>, k: Kind, f: Flow, c: Country)
    requires rules != [] && NoHit(e, rules[..|rules| - 1], k, f, c)
    ensures Hit(e, rules[|rules| - 1], k, f, c) || NoHit(e, rules, k, f, c)
    ensures Dominates(e, rules, k, f, c, |rules| - 1)
  {
    hide Hit;
    var front := rules[..|rules| - 1];
    assert forall j | 0 <= j < |front| :: front[j] == rules[j];
  }

  /** The picks of a kind are its candidates, in list order. */
  lemma PicksAreCandidates(e: Env, rules: seq<Rule>, k: Kind, f: Flow, c: Country, i: nat)
    ensures i in Picks(e, rules, k, f, c) <==> Candidate(e, rules, f, c, i) && rules[i].kind == k
  {
    hide Overrides, Matches;
    PicksAreHits(e, rules, k, f, c);
    if i < |rules| && Hit(e, rules[i], k, f, c) {
      if Listed(k) {
        ListedPicksEveryHit(e, rules, k, f, c, i);
      } else {
        PickDominates(e, rules, k, f, c);
        var ps := Picks(e, rules, k, f, c);
        hide Picks;
        assert ps != [] && Hit(e, rules[ps[0]], k, f, c);
        if i != ps[0] {
          assert Shadows(e, rules, ps[0], i);
        }
      }
    }
  }

  // ---------- The tables answer with the picks ----------

  /** The tables answer with the picked rules, and rank the pick of a tie-breaking kind as the scan does. */
  ghost predicate Agree(e: Env, rules: seq<Rule>, t: Tables, k: Kind, f: Flow, c: Country) {
    Answers(e, t, k, f, c) == Ms(rules, Picks(e, rules, k, f, c)) && Ranks(e, rules, t, k, f, Picks(e, rules, k, f, c))
  }

  ghost predicate Ranks(e: Env, rules: seq<Rule>, t: Tables, k: Kind, f: Flow, ps: seq<nat>)
    requires forall i | 0 <= i < |ps| :: ps[i] < |rules|
  {
    match k
    case DomainSuffix =>
      f.domain.Some? ==> LongestAt(t.suffix, Labels(f.domain.value))
                         == if ps == [] then None else Some(|Labels(Trim(rules[ps[0]].value))|)
    case IpCidr =>
      f.dstIp.Some? ==> IpLongestAt(t, f.dstIp.value) == if ps == [] then None else PrefixOf(e, rules[ps[0]])
    case Port =>
      f.dstPort != 0 ==> (f.dstPort in t.portExact <==> ps != [] && IsExact(rules[ps[0]]))
    case _ => true
  }

  function IpLongestAt(t: Tables, ip: Ip): Option<nat> {
    LongestAt(NetTable(t, ip), Bits(ip.Octets()))
  }

  function PrefixOf(e: Env, r: Rule): Option<nat> {
    match ParseCidr(e, Trim(r.value)) case None => None case Some(c) => Some(c.prefix)
  }

  lemma MsOfFront(rules: seq<Rule>, ps: seq<nat>)
    requires rules != [] && forall i | 0 <= i < |ps| :: ps[i] < |rules| - 1
    ensures Ms(rules[..|rules| - 1], ps) == Ms(rules, ps)
  {
  }

  ghost predicate Same<T>(a: T, b: T) {
    a == b
  }

  /** The tables that answer for one kind. */
  ghost predicate SameTable(t: Tables, u: Tables, k: Kind) {
    match k
    case Process => Same(t.process, u.process)
    case Domain => Same(t.exact, u.exact)
    case DomainSuffix => Same(t.suffix, u.suffix)
    case DomainKeyword => Same(t.keyword, u.keyword)
    case DomainRegex => Same(t.regex, u.regex)
    case IpCidr => Same(t.v4, u.v4) && Same(t.v6, u.v6)
    case Port => Same(t.portExact, u.portExact) && Same(t.portRange, u.portRange)
    case Protocol => Same(t.protocol, u.protocol)
    case Geoip => Same(t.geoip, u.geoip)
  }

  /** The two differ in the tables of one kind only. */
  ghost predicate OnlyTable(t: Tables, u: Tables, k: Kind) {
    match k
    case Process => u == t.(process := u.process)
    case Domain => u == t.(exact := u.exact)
    case DomainSuffix => u == t.(suffix := u.suffix)
    case DomainKeyword => u == t.(keyword := u.keyword)
    case DomainRegex => u == t.(regex := u.regex)
    case IpCidr => u == t.(v4 := u.v4, v6 := u.v6)
    case Port => u == t.(portExact := u.portExact, portRange := u.portRange)
    case Protocol => u == t.(protocol := u.protocol)
    case Geoip => u == t.(geoip := u.geoip)
  }

  /** Adding a rule touches the tables of its own kind only. */
  lemma AddTouchesOneTable(e: Env, t: Tables, r: Rule)
    requires Add(e, t, r).Some?
    ensures OnlyTable(t, Add(e, t, r).value, r.kind)
  {
    hide Trim, ParseCidr, ParsePorts, Labels, Lower, Upper, FromRule, AddCidr, AddPorts;
    if r.kind.IpCidr? {
      OnlyNets(t, ParseCidr(e, Trim(r.value)).value, FromRule(r));
    } else if r.kind.Port? {
      OnlyPorts(t, ParsePorts(Trim(r.value)).value, FromRule(r));
    }
  }

  lemma OnlyNets(t: Tables, c: Cidr, m: M)
    ensures OnlyTable(t, AddCidr(t, c, m), IpCidr)
  {
    hide CidrKey;
  }

  lemma OnlyPorts(t: Tables, p: Ports, m: M)
    ensures OnlyTable(t, AddPorts(t, p, m), Port)
  {
  }

  lemma OtherTablesAreTheSame(t: Tables, u: Tables, k: Kind, n: Kind)
    requires OnlyTable(t, u, k) && n != k
    ensures SameTable(t, u, n)
  {
  }

  lemma SameTableSameAnswers(e: Env, t: Tables, u: Tables, k: Kind, f: Flow, c: Country)
    requires SameTable(t, u, k)
    ensures Answers(e, t, k, f, c) == Answers(e, u, k, f, c)
  {
    hide KeywordHits, RegexHits, Longest, FirstRange, Labels, Lower, Upper, BaseName, Bits;
  }

  lemma SameTableSameRanks(e: Env, rules: seq<Rule>, t: Tables, u: Tables, k: Kind, f: Flow, ps: seq<nat>)
    requires SameTable(t, u, k) && forall i | 0 <= i < |ps| :: ps[i] < |rules|
    ensures Ranks(e, rules, t, k, f, ps) == Ranks(e, rules, u, k, f, ps)
  {
    hide LongestAt, Labels, Bits;
  }

  lemma KeyedAnswers(e: Env, t: Tables, r: Rule, k: Kind, f: Flow, c: Country)
    requires Add(e, t, r).Some? && r.kind == k && (k.Process? || k.Domain? || k.Protocol? || k.Geoip?)
    ensures Answers(e, Add(e, t, r).value, k, f, c)
         == if Matches(e, r, f, c) then [FromRule(r)] else Answers(e, t, k, f, c)
  {
    hide Trim, Lower, Upper, BaseName;
  }

  lemma ListedAnswers(e: Env, t: Tables, r: Rule, k: Kind, f: Flow, c: Country)
    requires Add(e, t, r).Some? && r.kind == k && Listed(k)
    ensures Answers(e, Add(e, t, r).value, k, f, c)
         == Answers(e, t, k, f, c) + if Matches(e, r, f, c) then [FromRule(r)] else []
  {
    hide Trim, Lower, Contains;
    if k == DomainKeyword {
      var entry := (Lower(Trim(r.value)), FromRule(r));
      assert (t.keyword + [entry])[..|t.keyword|] == t.keyword;
    } else {
      var entry := (Trim(r.value), FromRule(r));
      assert (t.regex + [entry])[..|t.regex|] == t.regex;
    }
  }

  /** A suffix rule that matches becomes the answer unless a longer suffix matches already. */
  lemma SuffixAnswers(e: Env, t: Tables, r: Rule, f: Flow, c: Country)
    requires Add(e, t, r).Some? && r.kind == DomainSuffix && f.domain.Some?
    ensures var name := Labels(f.domain.value);
            var u := Add(e, t, r).value.suffix;
            var n := |Labels(Trim(r.value))|;
            if Matches(e, r, f, c) && !(LongestAt(t.suffix, name).Some? && LongestAt(t.suffix, name).value > n)
            then LongestAt(u, name) == Some(n) && Longest(u, name) == Some(FromRule(r))
            else LongestAt(u, name) == LongestAt(t.suffix, name) && Longest(u, name) == Longest(t.suffix, name)
  {
    hide Trim, Labels, Longest, LongestAt, FromRule;
    var key, name := Labels(Trim(r.value)), Labels(f.domain.value);
    if key <= name {
      LongestAfterStore(t.suffix, name, key, FromRule(r));
    } else {
      LongestIgnoresOthers(t.suffix, name, key, FromRule(r));
    }
  }

  /** A CIDR rule that matches becomes the answer unless a longer prefix matches already. */
  lemma CidrAnswers(t: Tables, cidr: Cidr, m: M, ip: Ip)
    ensures var u := AddCidr(t, cidr, m);
            if InBlock(ip, cidr)
               && !(IpLongestAt(t, ip).Some? && IpLongestAt(t, ip).value > cidr.prefix)
            then IpLongestAt(u, ip) == Some(cidr.prefix) && IpAnswer(u, ip) == Some(m)
            else IpLongestAt(u, ip) == IpLongestAt(t, ip) && IpAnswer(u, ip) == IpAnswer(t, ip)
  {
    hide Bits, Longest, LongestAt, InBlock, CidrKey, AddCidr, NetTable;
    var key, bits := CidrKey(cidr), Bits(ip.Octets());
    AddCidrTable(t, cidr, m, ip);
    KeyIsBlock(ip, cidr);
    if cidr.net.V4? == ip.V4? {
      if key <= bits {
        LongestAfterStore(NetTable(t, ip), bits, key, m);
      } else {
        LongestIgnoresOthers(NetTable(t, ip), bits, key, m);
      }
    }
  }

  lemma AddCidrTable(t: Tables, cidr: Cidr, m: M, ip: Ip)
    ensures NetTable(AddCidr(t, cidr, m), ip)
         == if cidr.net.V4? == ip.V4? then NetTable(t, ip)[CidrKey(cidr) := m] else NetTable(t, ip)
  {
    hide CidrKey;
  }

  lemma {:induction false} FirstRangeAppend(ranges: seq<(nat, nat, M)>, lo: nat, hi: nat, m: M, port: nat)
    ensures FirstRange(ranges + [(lo, hi, m)], port)
         == match FirstRange(ranges, port)
            case Some(x) => Some(x)
            case None => if lo <= port <= hi then Some(m) else None
  {
    if ranges == [] {
      assert (ranges + [(lo, hi, m)])[1..] == [];
    } else {
      assert (ranges + [(lo, hi, m)])[1..] == ranges[1..] + [(lo, hi, m)];
      FirstRangeAppend(ranges[1..], lo, hi, m, port);
    }
  }

  /** An exact port takes over; a range is the answer only where nothing answered before. */
  lemma PortAnswers(t: Tables, p: Ports, m: M, port: nat)
    ensures var u := AddPorts(t, p, m);
            match p
            case Exact(n) =>
              if n == port then port in u.portExact && PortAnswer(u, port) == Some(m)
              else (port in u.portExact <==> port in t.portExact) && PortAnswer(u, port) == PortAnswer(t, port)
            case Range(lo, hi) =>
              && (port in u.portExact <==> port in t.portExact)
              && PortAnswer(u, port)
                 == if PortAnswer(t, port) == None && lo <= port <= hi then Some(m) else PortAnswer(t, port)
  {
    if p.Range? {
      FirstRangeAppend(t.portRange, p.lo, p.hi, m, port);
    }
  }

  // ---------- One more rule ----------

  /** The last rule, which matches, does not take the place of the pick before it. */
  predicate Yields(e: Env, rules: seq<Rule>, k: Kind, f: Flow, c: Country)
    requires rules != []
  {
    var ps := Picks(e, rules[..|rules| - 1], k, f, c);
    ps != [] && !Overrides(e, rules[|rules| - 1], rules[ps[0]])
  }

  lemma PicksStay(e: Env, rules: seq<Rule>, t: Tables, u: Tables, k: Kind, f: Flow, c: Country)
    requires rules != [] && Agree(e, rules[..|rules| - 1], t, k, f, c)
    requires Hit(e, rules[|rules| - 1], k, f, c) ==> !Listed(k) && Yields(e, rules, k, f, c)
    requires Answers(e, u, k, f, c) == Answers(e, t, k, f, c)
    requires Ranks(e, rules[..|rules| - 1], u, k, f, Picks(e, rules[..|rules| - 1], k, f, c))
    ensures Agree(e, rules, u, k, f, c)
  {
    hide Hit, Overrides, Answers, Ms, LongestAt, Labels, Trim, Lower;
    var ps := Picks(e, rules[..|rules| - 1], k, f, c);
    assert Picks(e, rules, k, f, c) == ps;
    hide Picks;
    MsOfFront(rules, ps);
  }

  lemma PicksMove(e: Env, rules: seq<Rule>, u: Tables, k: Kind, f: Flow, c: Country)
    requires rules != [] && !Listed(k)
    requires Hit(e, rules[|rules| - 1], k, f, c) && !Yields(e, rules, k, f, c)
    requires Answers(e, u, k, f, c) == [FromRule(rules[|rules| - 1])]
    requires Ranks(e, rules, u, k, f, [|rules| - 1])
    ensures Agree(e, rules, u, k, f, c)
  {
    hide Hit, Overrides, Answers, Ranks;
    assert Picks(e, rules, k, f, c) == [|rules| - 1];
    assert Ms(rules, [|rules| - 1]) == [FromRule(rules[|rules| - 1])];
  }

  lemma KeyedStep(e: Env, rules: seq<Rule>, t: Tables, u: Tables, k: Kind, f: Flow, c: Country)
    requires rules != [] && Agree(e, rules[..|rules| - 1], t, k, f, c)
    requires rules[|rules| - 1].enabled && rules[|rules| - 1].kind == k && Add(e, t, rules[|rules| - 1]) == Some(u)
    requires k.Process? || k.Domain? || k.Protocol? || k.Geoip?
    ensures Agree(e, rules, u, k, f, c)
  {
    var r := rules[|rules| - 1];
    KeyedAnswers(e, t, r, k, f, c);
    hide Matches, Answers, Add, Picks, Ms;
    if Matches(e, r, f, c) {
      PicksMove(e, rules, u, k, f, c);
    } else {
      PicksStay(e, rules, t, u, k, f, c);
    }
  }

  lemma ListedStep(e: Env, rules: seq<Rule>, t: Tables, u: Tables, k: Kind, f: Flow, c: Country)
    requires rules != [] && Agree(e, rules[..|rules| - 1], t, k, f, c)
    requires rules[|rules| - 1].enabled && rules[|rules| - 1].kind == k && Add(e, t, rules[|rules| - 1]) == Some(u)
    requires Listed(k)
    ensures Agree(e, rules, u, k, f, c)
  {
    var r := rules[|rules| - 1];
    var ps := Picks(e, rules[..|rules| - 1], k, f, c);
    ListedAnswers(e, t, r, k, f, c);
    hide Matches, Answers, Add;
    if Matches(e, r, f, c) {
      MsOfFront(rules, ps);
      assert Ms(rules, ps + [|rules| - 1]) == Ms(rules, ps) + [FromRule(r)];
    } else {
      PicksStay(e, rules, t, u, k, f, c);
    }
  }

  lemma SuffixStep(e: Env, rules: seq<Rule>, t: Tables, u: Tables, f: Flow, c: Country)
    requires rules != [] && Agree(e, rules[..|rules| - 1], t, DomainSuffix, f, c)
    requires rules[|rules| - 1].enabled && rules[|rules| - 1].kind == DomainSuffix
    requires Add(e, t, rules[|rules| - 1]) == Some(u)
    ensures Agree(e, rules, u, DomainSuffix, f, c)
  {
    var r := rules[|rules| - 1];
    hide LongestAt, Longest, Labels, Trim, Add, Picks, Ms, FromRule;
    if f.domain.Some? {
      SuffixAnswers(e, t, r, f, c);
      if Matches(e, r, f, c) && !Yields(e, rules, DomainSuffix, f, c) {
        PicksMove(e, rules, u, DomainSuffix, f, c);
      } else {
        PicksStay(e, rules, t, u, DomainSuffix, f, c);
      }
    } else {
      PicksStay(e, rules, t, u, DomainSuffix, f, c);
    }
  }

  lemma CidrStep(e: Env, rules: seq<Rule>, t: Tables, u: Tables, f: Flow, c: Country)
    requires rules != [] && Agree(e, rules[..|rules| - 1], t, IpCidr, f, c)
    requires rules[|rules| - 1].enabled && rules[|rules| - 1].kind == IpCidr
    requires Add(e, t, rules[|rules| - 1]) == Some(u)
    ensures Agree(e, rules, u, IpCidr, f, c)
  {
    var r := rules[|rules| - 1];
    var front := rules[..|rules| - 1];
    var cidr := ParseCidr(e, Trim(r.value)).value;
    hide IpLongestAt, IpAnswer, ParseCidr, Trim, Picks, Ms, FromRule, InBlock, AddCidr;
    if f.dstIp.Some? {
      CidrAnswers(t, cidr, FromRule(r), f.dstIp.value);
      if Matches(e, r, f, c) && !Yields(e, rules, IpCidr, f, c) {
        PicksHaveCidrs(e, front, f, c);
        PicksMove(e, rules, u, IpCidr, f, c);
      } else {
        PicksStay(e, rules, t, u, IpCidr, f, c);
      }
    } else {
      PicksStay(e, rules, t, u, IpCidr, f, c);
    }
  }

  lemma PicksHaveCidrs(e: Env, rules: seq<Rule>, f: Flow, c: Country)
    ensures var ps := Picks(e, rules, IpCidr, f, c);
            ps != [] ==> ParseCidr(e, Trim(rules[ps[0]].value)).Some?
  {
    PicksAreHits(e, rules, IpCidr, f, c);
    hide Picks, ParseCidr, Trim;
  }

  /** A matching port rule becomes the answer if it is exact or nothing answered before. */
  lemma PortRuleAnswers(e: Env, t: Tables, u: Tables, r: Rule, f: Flow, c: Country)
    requires r.kind == Port && Add(e, t, r) == Some(u) && f.dstPort != 0
    ensures var port := f.dstPort;
            if Matches(e, r, f, c) && (IsExact(r) || PortAnswer(t, port) == None)
            then PortAnswer(u, port) == Some(FromRule(r)) && (port in u.portExact <==> IsExact(r) || port in t.portExact)
            else PortAnswer(u, port) == PortAnswer(t, port) && (port in u.portExact <==> port in t.portExact)
  {
    hide Trim, ParsePorts, FromRule, PortAnswer, AddPorts;
    var ports := ParsePorts(Trim(r.value)).value;
    PortAnswers(t, ports, FromRule(r), f.dstPort);
    ExactIsAnswered(t, f.dstPort);
    ExactIsAnswered(u, f.dstPort);
  }

  lemma ExactIsAnswered(t: Tables, port: nat)
    ensures port in t.portExact ==> PortAnswer(t, port).Some?
  {
  }

  lemma PortStep(e: Env, rules: seq<Rule>, t: Tables, u: Tables, f: Flow, c: Country)
    requires rules != [] && Agree(e, rules[..|rules| - 1], t, Port, f, c)
    requires rules[|rules| - 1].enabled && rules[|rules| - 1].kind == Port
    requires Add(e, t, rules[|rules| - 1]) == Some(u)
    ensures Agree(e, rules, u, Port, f, c)
  {
    var r := rules[|rules| - 1];
    if f.dstPort != 0 {
      PortRuleAnswers(e, t, u, r, f, c);
      ExactIsAnswered(t, f.dstPort);
      hide PortAnswer, IsExact, Picks, FromRule, Add, Matches, Ms, AreHits;
      if Matches(e, r, f, c) && !Yields(e, rules, Port, f, c) {
        PicksMove(e, rules, u, Port, f, c);
      } else {
        PicksStay(e, rules, t, u, Port, f, c);
      }
    } else {
      NoPortStep(e, rules, t, u, f, c);
    }
  }

  lemma NoPortStep(e: Env, rules: seq<Rule>, t: Tables, u: Tables, f: Flow, c: Country)
    requires rules != [] && Agree(e, rules[..|rules| - 1], t, Port, f, c)
    requires rules[|rules| - 1].kind == Port && f.dstPort == 0
    ensures Agree(e, rules, u, Port, f, c)
  {
    hide PortAnswer, IsExact, Picks, FromRule, Add, Ms;
    NoPortNoMatch(e, rules[|rules| - 1], f, c);
    PicksStay(e, rules, t, u, Port, f, c);
  }

  lemma NoPortNoMatch(e: Env, r: Rule, f: Flow, c: Country)
    requires r.kind == Port && f.dstPort == 0
    ensures !Matches(e, r, f, c)
  {
    hide Trim, ParsePorts;
  }

  /** The index agrees with the scan, kind by kind, on every list it can be built from. */
  lemma {:induction false} TablesAgree(e: Env, rules: seq<Rule>, k: Kind, f: Flow, c: Country)
    requires Build(e, rules).Some?
    ensures Agree(e, rules, Build(e, rules).value, k, f, c)
    decreases |rules|
  {
    hide Answers, Ranks, Add, SameTable, OnlyTable;
    if rules == [] {
      NothingAgrees(e, k, f, c);
    } else {
      var r := rules[|rules| - 1];
      var t, u := Build(e, rules[..|rules| - 1]).value, Build(e, rules).value;
      TablesAgree(e, rules[..|rules| - 1], k, f, c);
      if !r.enabled {
        PicksStay(e, rules, t, u, k, f, c);
      } else if r.kind != k {
        AddTouchesOneTable(e, t, r);
        OtherTablesAreTheSame(t, u, r.kind, k);
        SameTableSameAnswers(e, t, u, k, f, c);
        SameTableSameRanks(e, rules[..|rules| - 1], t, u, k, f, Picks(e, rules[..|rules| - 1], k, f, c));
        PicksStay(e, rules, t, u, k, f, c);
      } else if k == DomainSuffix {
        SuffixStep(e, rules, t, u, f, c);
      } else if k == IpCidr {
        CidrStep(e, rules, t, u, f, c);
      } else if k == Port {
        PortStep(e, rules, t, u, f, c);
      } else if Listed(k) {
        ListedStep(e, rules, t, u, k, f, c);
      } else {
        KeyedStep(e, rules, t, u, k, f, c);
      }
    }
  }

  lemma NothingAgrees(e: Env, k: Kind, f: Flow, c: Country)
    ensures Agree(e, [], EMPTY, k, f, c)
  {
    hide Longest, LongestAt, Labels, Bits, Lower, Upper, BaseName;
    assert Picks(e, [], k, f, c) == [];
    hide Picks;
    if f.domain.Some? {
      NothingStored<string, M>(Labels(f.domain.value));
    }
    if f.dstIp.Some? {
      NothingStored<Bit, M>(Bits(f.dstIp.value.Octets()));
    }
  }
}
