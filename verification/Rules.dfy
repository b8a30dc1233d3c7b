/** Routing rules and flows, and which rule ought to decide a flow: stated on the rule list alone,
    without any index. */
module Rules {
  import opened Prelude
  import opened Text
  import opened Address
  import opened DomainLabels

  datatype Action = Direct | Proxy | Block

  datatype Kind = Domain | DomainSuffix | DomainKeyword | DomainRegex | IpCidr | Port | Process | Protocol | Geoip

  datatype Rule = Rule(id: string, kind: Kind, value: string, action: Action, enabled: bool, priority: int)

  datatype Flow = Flow(protocol: string, dstIp: Option<Ip>, dstPort: nat, domain: Option<string>,
                       process: Option<string>)

  /** What the standard library and the regex crate decide. */
  datatype Env = Env(parseIp: string -> Option<Ip>, compiles: string -> bool, isMatch: (string, string) -> bool)

  datatype Error = ConfigInvalid | NotFound | Disk

  function DefaultPriority(k: Kind): int {
    match k
    case Process => 900
    case Domain | DomainSuffix | DomainKeyword | DomainRegex => 800
    case IpCidr | Port | Protocol => 700
    case Geoip => 600
  }

  function EffectivePriority(r: Rule): int {
    if r.priority > 0 then r.priority else DefaultPriority(r.kind)
  }

  // ---------- Values ----------

  const MAX_USIZE: nat := 0xFFFF_FFFF_FFFF_FFFF

  /** A rule's CIDR. Without a slash the prefix is `u32::MAX`, which no family admits. */
  function ParseCidr(e: Env, text: string): Option<Cidr> {
    match SplitOnce(text, '/')
    case None => None
    case Some((ip, p)) =>
      match (e.parseIp(Trim(ip)), ParseUnsigned(p, MAX_USIZE))
      case (Some(net), Some(prefix)) => if prefix <= net.Width() then Some(Subnet(net, prefix)) else None
      case _ => None
  }

  datatype Ports = Exact(port: nat) | Range(lo: nat, hi: nat)

  const MAX_PORT: nat := 65535

  function ParsePorts(text: string): Option<Ports> {
    match SplitOnce(text, '-')
    case None =>
      (match ParseUnsigned(text, MAX_PORT)
       case None => None
       case Some(n) => Some(Exact(n)))
    case Some((a, b)) =>
      (match (ParseUnsigned(Trim(a), MAX_PORT), ParseUnsigned(Trim(b), MAX_PORT))
       case (Some(lo), Some(hi)) => Some(Range(lo, hi))
       case _ => None)
  }

  /** Can an index be built from this rule? */
  predicate Buildable(e: Env, r: Rule) {
    match r.kind
    case DomainRegex => e.compiles(Trim(r.value))
    case IpCidr => ParseCidr(e, Trim(r.value)).Some?
    case Port => ParsePorts(Trim(r.value)).Some?
    case _ => true
  }

  // ---------- Which rules apply ----------

  /** The file name of an executable path, lower case. */
  function BaseName(exe: string): string {
    AfterLast(AfterLast(Lower(exe), '\\'), '/')
  }

  /** Does the rule's own condition hold of the flow? `country` is the GeoIP country of its address. */
  predicate Matches(e: Env, r: Rule, f: Flow, country: Option<string>) {
    var v := Trim(r.value);
    match r.kind
    case Process => f.process.Some? && BaseName(f.process.value) == Lower(v)
    case Domain => f.domain.Some? && EqIgnoreCase(f.domain.value, v)
    case DomainSuffix => f.domain.Some? && Labels(v) <= Labels(f.domain.value)
    case DomainKeyword => f.domain.Some? && Contains(Lower(f.domain.value), Lower(v))
    case DomainRegex => f.domain.Some? && e.isMatch(v, f.domain.value)
    case IpCidr =>
      (match (f.dstIp, ParseCidr(e, v))
       case (Some(ip), Some(c)) => InBlock(ip, c)
       case _ => false)
    case Port =>
      (match ParsePorts(v)
       case Some(Exact(n)) => f.dstPort != 0 && f.dstPort == n
       case Some(Range(lo, hi)) => f.dstPort != 0 && lo <= f.dstPort <= hi
       case None => false)
    case Protocol => f.protocol != "" && EqIgnoreCase(f.protocol, v)
    case Geoip => f.dstIp.Some? && country.Some? && Upper(country.value) == Upper(v)
  }

  predicate Hit(e: Env, r: Rule, k: Kind, f: Flow, country: Option<string>) {
    r.enabled && r.kind == k && Matches(e, r, f, country)
  }

  /** Kinds whose matching rules all compete; of the other kinds only one does. */
  predicate Listed(k: Kind) {
    k.DomainKeyword? || k.DomainRegex?
  }

  /** One port rather than a range. */
  predicate IsExact(r: Rule) {
    ParsePorts(Trim(r.value)) != None && ParsePorts(Trim(r.value)).value.Exact?
  }

  /** Two rules of one unlisted kind match the same flow: does the later take the earlier's place? */
  predicate Overrides(e: Env, later: Rule, earlier: Rule) {
    match later.kind
    case DomainSuffix => |Labels(Trim(later.value))| >= |Labels(Trim(earlier.value))|
    case IpCidr =>
      (match (ParseCidr(e, Trim(later.value)), ParseCidr(e, Trim(earlier.value)))
       case (Some(a), Some(b)) => a.prefix >= b.prefix
       case _ => true)
    case Port => IsExact(later)
    case _ => true
  }

  /** Rule `j` leaves rule `i` without a say. */
  predicate Shadows(e: Env, rules: seq<Rule>, j: nat, i: nat)
    requires j < |rules| && i < |rules|
  {
    && rules[i].kind == rules[j].kind && !Listed(rules[i].kind)
    && ((i < j && Overrides(e, rules[j], rules[i])) || (j < i && !Overrides(e, rules[i], rules[j])))
  }

  ghost predicate Candidate(e: Env, rules: seq<Rule>, f: Flow, country: Option<string>, i: nat) {
    && i < |rules| && Hit(e, rules[i], rules[i].kind, f, country)
    && !exists j | 0 <= j < |rules| :: Hit(e, rules[j], rules[j].kind, f, country) && Shadows(e, rules, j, i)
  }

  // ---------- Who wins ----------

  /** The order in which kinds are consulted. */
  function Rank(k: Kind): nat {
    match k
    case Process => 0
    case Domain => 1
    case DomainSuffix => 2
    case DomainKeyword => 3
    case DomainRegex => 4
    case IpCidr => 5
    case Port => 6
    case Protocol => 7
    case Geoip => 8
  }

  function Stage(k: Kind): string {
    match k
    case Process => "process"
    case Domain | DomainSuffix | DomainKeyword | DomainRegex => "domain"
    case IpCidr => "ip"
    case Port => "port"
    case Protocol => "protocol"
    case Geoip => "geoip"
  }

  predicate Before(rules: seq<Rule>, i: nat, j: nat)
    requires i < |rules| && j < |rules|
  {
    Rank(rules[i].kind) < Rank(rules[j].kind) || (rules[i].kind == rules[j].kind && i < j)
  }

  /** A candidate of the highest priority, and the first such in the order of consultation. */
  ghost predicate Wins(e: Env, rules: seq<Rule>, f: Flow, country: Option<string>, i: nat) {
    && Candidate(e, rules, f, country, i)
    && forall j | 0 <= j < |rules| && j != i && Candidate(e, rules, f, country, j) ::
         || EffectivePriority(rules[j]) < EffectivePriority(rules[i])
         || (EffectivePriority(rules[j]) == EffectivePriority(rules[i]) && Before(rules, i, j))
  }

  lemma AtMostOneWins(e: Env, rules: seq<Rule>, f: Flow, country: Option<string>, i: nat, j: nat)
    requires Wins(e, rules, f, country, i) && Wins(e, rules, f, country, j)
    ensures i == j
  {
    assert Candidate(e, rules, f, country, i) && Candidate(e, rules, f, country, j);
  }

  // ---------- What the values of rules mean ----------

  /** A rule of the given priority comes before one without, by stage: beyond 900, 800, 700 or 600. */
  lemma PriorityAgainstLadder(own: Rule, derived: Rule)
    requires own.priority > 0 && derived.priority <= 0
    ensures EffectivePriority(own) > EffectivePriority(derived) <==>
            own.priority > match Stage(derived.kind)
                           case "process" => 900
                           case "domain" => 800
                           case "geoip" => 600
                           case _ => 700
    ensures EffectivePriority(own) == own.priority
  {
    assert "process"[0] == 'p' && "domain"[0] == 'd' && "geoip"[0] == 'g' && "ip"[0] == 'i' && "port"[1] == 'o'
           && "process"[1] == 'r' && |"protocol"| == 8 && |"process"| == 7;
  }

  lemma DecimalIsPlain(n: nat)
    ensures Trim(Decimal(n)) == Decimal(n) && '-' !in Decimal(n) && '/' !in Decimal(n)
  {
    TrimNoSpace(Decimal(n));
  }

  /** A single port, or two with a dash, each up to 65535, and white space around the dash. */
  lemma PortsMean(n: nat, lo: nat, hi: nat)
    ensures ParsePorts(Decimal(n)) == if n <= 65535 then Some(Exact(n)) else None
    ensures ParsePorts(Decimal(lo) + "-" + Decimal(hi)) == if lo <= 65535 && hi <= 65535 then Some(Range(lo, hi)) else None
  {
    DecimalIsPlain(n);
    DecimalIsPlain(lo);
    DecimalIsPlain(hi);
    SplitOnceMeans(Decimal(n), '-', "", "");
    var both := Decimal(lo) + "-" + Decimal(hi);
    assert both == Decimal(lo) + ['-'] + Decimal(hi);
    SplitOnceMeans(both, '-', Decimal(lo), Decimal(hi));
    ParseUnsignedMeans(n, 65535);
    ParseUnsignedMeans(lo, 65535);
    ParseUnsignedMeans(hi, 65535);
    hide Decimal, SplitOnce, ParseUnsigned, Trim;
  }

  /** An address, a slash and a prefix length that the family admits; without a slash, nothing. */
  lemma CidrMeans(e: Env, address: string, prefix: nat)
    requires '/' !in address
    ensures ParseCidr(e, address) == None
    ensures ParseCidr(e, address + "/" + Decimal(prefix)) ==
            match e.parseIp(Trim(address))
            case None => None
            case Some(net) => if prefix <= net.Width() then Some(Subnet(net, prefix)) else None
  {
    SplitOnceMeans(address, '/', "", "");
    assert address + "/" + Decimal(prefix) == address + ['/'] + Decimal(prefix);
    SplitOnceMeans(address + "/" + Decimal(prefix), '/', address, Decimal(prefix));
    ParseUnsignedMeans(prefix, MAX_USIZE);
    hide Decimal, SplitOnce, ParseUnsigned, Trim;
  }

  lemma TailHas<T>(all: seq<T>, front: seq<T>, sep: T, tail: seq<T>, x: T)
    requires all == front + [sep] + tail && x !in all
    ensures x !in tail
  {
    assert forall k | 0 <= k < |tail| :: tail[k] == all[|front| + 1 + k];
  }

  /** The base name has no separator of either kind, and is the lower-case path or what stands after its last one. */
  lemma BaseNameMeans(exe: string) returns (front: string, sep: char)
    ensures '\\' !in BaseName(exe) && '/' !in BaseName(exe)
    ensures BaseName(exe) == Lower(exe) || ((sep == '\\' || sep == '/') && Lower(exe) == front + [sep] + BaseName(exe))
  {
    var low := Lower(exe);
    var mid := AfterLast(low, '\\');
    var name := AfterLast(mid, '/');
    assert name == BaseName(exe);
    hide AfterLast, Lower, BaseName;
    front := AfterLastMeans(low, '\\');
    var f := AfterLastMeans(mid, '/');
    sep := '\\';
    if mid != name {
      TailHas(mid, f, '/', name, '\\');
      Regrouped(front, '\\', f, '/', name);
      front, sep := if mid == low then f else front + ['\\'] + f, '/';
    }
  }

  lemma Regrouped<T>(a: seq<T>, x: T, b: seq<T>, y: T, c: seq<T>)
    ensures a + [x] + (b + [y] + c) == (a + [x] + b) + [y] + c
  {
  }
}
