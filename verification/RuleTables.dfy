/** The composite rule index as a value: what it holds after a list of rules, and what it answers. */
module RuleTables {
  import opened Prelude
  import opened Text
  import opened PrefixMap
  import opened BitTrie
  import opened Address
  import opened DomainLabels
  import opened Rules

  /** What an index keeps of a rule. */
  datatype M = M(ruleId: string, action: Action, priority: int)

  function FromRule(r: Rule): M {
    M(r.id, r.action, EffectivePriority(r))
  }

  datatype Tables = Tables(
    suffix: map<seq<string>, M>,
    exact: map<string, M>,
    keyword: seq<(string, M)>,
    regex: seq<(string, M)>,
    v4: map<seq<Bit>, M>,
    v6: map<seq<Bit>, M>,
    process: map<string, M>,
    portExact: map<nat, M>,
    portRange: seq<(nat, nat, M)>,
    protocol: map<string, M>,
    geoip: map<string, M>)

  const EMPTY := Tables(map[], map[], [], [], map[], map[], map[], map[], [], map[], map[])

  function AddCidr(t: Tables, c: Cidr, m: M): Tables
  {
    if c.net.V4? then t.(v4 := t.v4[CidrKey(c) := m]) else t.(v6 := t.v6[CidrKey(c) := m])
  }

  function AddPorts(t: Tables, p: Ports, m: M): Tables {
    match p
    case Exact(n) => t.(portExact := t.portExact[n := m])
    case Range(lo, hi) => t.(portRange := t.portRange + [(lo, hi, m)])
  }

  /** One step of the build loop; `None` is the error that abandons the whole build. */
  function Add(e: Env, t: Tables, r: Rule): Option<Tables> {
    var m, v := FromRule(r), Trim(r.value);
    match r.kind
    case Domain => Some(t.(exact := t.exact[Lower(v) := m]))
    case DomainSuffix => Some(t.(suffix := t.suffix[Labels(v) := m]))
    case DomainKeyword => Some(t.(keyword := t.keyword + [(Lower(v), m)]))
    case DomainRegex => if e.compiles(v) then Some(t.(regex := t.regex + [(v, m)])) else None
    case IpCidr =>
      (match ParseCidr(e, v)
       case None => None
       case Some(c) => Some(AddCidr(t, c, m)))
    case Port =>
      (match ParsePorts(v)
       case None => None
       case Some(p) => Some(AddPorts(t, p, m)))
    case Process => Some(t.(process := t.process[Lower(v) := m]))
    case Protocol => Some(t.(protocol := t.protocol[Lower(v) := m]))
    case Geoip => Some(t.(geoip := t.geoip[Upper(v) := m]))
  }

  function Build(e: Env, rules: seq<Rule>): Option<Tables> {
    if rules == [] then Some(EMPTY)
    else
      var r := rules[|rules| - 1];
      match Build(e, rules[..|rules| - 1])
      case None => None
      case Some(t) => if r.enabled then Add(e, t, r) else Some(t)
  }

  lemma {:induction false} BuildSucceeds(e: Env, rules: seq<Rule>)
    ensures Build(e, rules).Some? <==> forall i | 0 <= i < |rules| :: rules[i].enabled ==> Buildable(e, rules[i])
  {
    if rules != [] {
      BuildSucceeds(e, rules[..|rules| - 1]);
    }
  }

  // ---------- Answers ----------

  function At<K(==), V>(m: map<K, V>, k: K): Option<V> {
    if k in m then Some(m[k]) else None
  }

  function ToSeq<V>(o: Option<V>): seq<V> {
    match o case None => [] case Some(v) => [v]
  }

  function KeywordHits(ks: seq<(string, M)>, lower: string): seq<M> {
    if ks == [] then []
    else
      var last := ks[|ks| - 1];
      KeywordHits(ks[..|ks| - 1], lower) + if Contains(lower, last.0) then [last.1] else []
  }

  function RegexHits(e: Env, rs: seq<(string, M)>, name: string): seq<M> {
    if rs == [] then []
    else
      var last := rs[|rs| - 1];
      RegexHits(e, rs[..|rs| - 1], name) + if e.isMatch(last.0, name) then [last.1] else []
  }

  /** The first range that contains the port. */
  function FirstRange(ranges: seq<(nat, nat, M)>, port: nat): Option<M> {
    if ranges == [] then None
    else if ranges[0].0 <= port <= ranges[0].1 then Some(ranges[0].2)
    else FirstRange(ranges[1..], port)
  }

  function PortAnswer(t: Tables, port: nat): Option<M> {
    if port in t.portExact then Some(t.portExact[port]) else FirstRange(t.portRange, port)
  }

  /** The trie of the address's family. */
  function NetTable(t: Tables, ip: Ip): map<seq<Bit>, M> {
    if ip.V4? then t.v4 else t.v6
  }

  function IpAnswer(t: Tables, ip: Ip): Option<M> {
    Longest(NetTable(t, ip), Bits(ip.Octets()))
  }

  /** What the tables answer for one kind of rule, in order. */
  function Answers(e: Env, t: Tables, k: Kind, f: Flow, country: Option<string>): seq<M> {
    match k
    case Process => if f.process.Some? then ToSeq(At(t.process, BaseName(f.process.value))) else []
    case Domain => if f.domain.Some? then ToSeq(At(t.exact, Lower(f.domain.value))) else []
    case DomainSuffix => if f.domain.Some? then ToSeq(Longest(t.suffix, Labels(f.domain.value))) else []
    case DomainKeyword => if f.domain.Some? then KeywordHits(t.keyword, Lower(f.domain.value)) else []
    case DomainRegex => if f.domain.Some? then RegexHits(e, t.regex, f.domain.value) else []
    case IpCidr => if f.dstIp.Some? then ToSeq(IpAnswer(t, f.dstIp.value)) else []
    case Port => if f.dstPort != 0 then ToSeq(PortAnswer(t, f.dstPort)) else []
    case Protocol => if f.protocol != "" then ToSeq(At(t.protocol, Lower(f.protocol))) else []
    case Geoip => if f.dstIp.Some? && country.Some? then ToSeq(At(t.geoip, Upper(country.value))) else []
  }

  /** A later answer wins only with a strictly higher priority. */
  function Better(current: Option<M>, candidate: M): Option<M> {
    if current.Some? && current.value.priority >= candidate.priority then current else Some(candidate)
  }

  function FirstMax(ms: seq<M>): Option<M> {
    if ms == [] then None else Better(FirstMax(ms[..|ms| - 1]), ms[|ms| - 1])
  }
}
