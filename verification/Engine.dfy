/** The routing engine: rule edits that publish all or nothing, and the decision for a flow. */
module Engine {
  import opened Prelude
  import opened Text
  import opened Rules
  import opened RuleScan
  import opened RuleVerdict
  import T = RuleTables
  import RuleIndex
  import GeoIp
  import BitTrie
  import DomainTrie

  datatype Mode = DirectMode | GlobalMode | SmartMode

  datatype Config = Config(mode: Mode, finalAction: Action, homeCountry: string)

  datatype Decision = Decision(action: Action, ruleId: Option<string>, reason: string)

  // ---------- Edits on the rule list ----------

  const USER_PRIORITY: int := 1000

  /** A requested edit; `uuid` is the fresh identifier an unnamed rule gets. */
  datatype Edit = AddRule(rule: Rule, uuid: string) | UpdateRule(rule: Rule) | DeleteRule(id: string)

  function Pinned(rule: Rule, uuid: string): Rule {
    rule.(id := if rule.id == "" then "rule_" + uuid else rule.id, priority := USER_PRIORITY)
  }

  function Position(rules: seq<Rule>, id: string): Option<nat> {
    if rules == [] then None
    else if rules[0].id == id then Some(0)
    else match Position(rules[1..], id) case None => None case Some(i) => Some(i + 1)
  }

  function Without(rules: seq<Rule>, id: string): seq<Rule> {
    if rules == [] then []
    else
      var last := rules[|rules| - 1];
      Without(rules[..|rules| - 1], id) + if last.id == id then [] else [last]
  }

  /** The list an edit asks for, before it is validated. */
  function Wanted(rules: seq<Rule>, edit: Edit): Result<seq<Rule>, Error> {
    match edit
    case AddRule(rule, uuid) =>
      if Trim(rule.value) == "" then Err(ConfigInvalid) else Ok(rules + [Pinned(rule, uuid)])
    case UpdateRule(rule) =>
      (match Position(rules, rule.id)
       case None => Err(NotFound)
       case Some(i) => if i < |rules| then Ok(rules[i := rule]) else Err(NotFound))
    case DeleteRule(id) => Ok(Without(rules, id))
  }

  /** The published list after an edit: the wanted one if it builds and is written, else the old one. */
  function After(e: Env, rules: seq<Rule>, edit: Edit, diskOk: bool): Result<seq<Rule>, Error> {
    match Wanted(rules, edit)
    case Err(x) => Err(x)
    case Ok(next) => if T.Build(e, next).None? then Err(ConfigInvalid) else if !diskOk then Err(Disk) else Ok(next)
  }

  lemma {:induction false} PositionIsFirst(rules: seq<Rule>, id: string)
    ensures match Position(rules, id)
            case Some(i) => i < |rules| && rules[i].id == id && forall j | 0 <= j < i :: rules[j].id != id
            case None => forall j | 0 <= j < |rules| :: rules[j].id != id
  {
    if rules != [] {
      PositionIsFirst(rules[1..], id);
    }
  }

  lemma {:induction false} WithoutIsGone(rules: seq<Rule>, id: string)
    ensures forall j | 0 <= j < |Without(rules, id)| :: Without(rules, id)[j].id != id && Without(rules, id)[j] in rules
    ensures forall r | r in rules && r.id != id :: r in Without(rules, id)
  {
    if rules != [] {
      WithoutIsGone(rules[..|rules| - 1], id);
    }
  }

  /** Deleting never fails to build: it leaves only rules that were in a list that built. */
  lemma DeleteAlwaysBuilds(e: Env, rules: seq<Rule>, id: string, diskOk: bool)
    requires T.Build(e, rules).Some?
    ensures After(e, rules, DeleteRule(id), diskOk) == if diskOk then Ok(Without(rules, id)) else Err(Disk)
  {
    T.BuildSucceeds(e, rules);
    WithoutIsGone(rules, id);
    T.BuildSucceeds(e, Without(rules, id));
  }

  // ---------- Deleted rules stay deleted ----------

  function Published(e: Env, rules: seq<Rule>, edit: Edit, diskOk: bool): seq<Rule> {
    match After(e, rules, edit, diskOk) case Ok(next) => next case Err(_) => rules
  }

  function Run(e: Env, rules: seq<Rule>, edits: seq<(Edit, bool)>): seq<Rule>
    decreases |edits|
  {
    if edits == [] then rules
    else
      var last := edits[|edits| - 1];
      Published(e, Run(e, rules, edits[..|edits| - 1]), last.0, last.1)
  }

  ghost predicate Absent(rules: seq<Rule>, id: string) {
    forall j | 0 <= j < |rules| :: rules[j].id != id
  }

  /** Does this edit bring the identifier back? Only an addition under that name can. */
  predicate Restores(edit: Edit, id: string) {
    edit.AddRule? && Pinned(edit.rule, edit.uuid).id == id
  }

  lemma EditKeepsAbsent(e: Env, rules: seq<Rule>, edit: Edit, diskOk: bool, id: string)
    requires Absent(rules, id) && !Restores(edit, id)
    ensures Absent(Published(e, rules, edit, diskOk), id)
  {
    hide T.Build, Trim;
    match edit
    case AddRule(_, _) =>
    case UpdateRule(rule) => PositionIsFirst(rules, rule.id);
    case DeleteRule(other) => WithoutIsGone(rules, other);
  }

  lemma {:induction false} RunKeepsAbsent(e: Env, rules: seq<Rule>, edits: seq<(Edit, bool)>, id: string)
    requires Absent(rules, id) && forall i | 0 <= i < |edits| :: !Restores(edits[i].0, id)
    ensures Absent(Run(e, rules, edits), id)
    decreases |edits|
  {
    if edits != [] {
      var n := |edits| - 1;
      RunKeepsAbsent(e, rules, edits[..n], id);
      EditKeepsAbsent(e, Run(e, rules, edits[..n]), edits[n].0, edits[n].1, id);
    }
  }

  /** After a successful delete no later decision names the rule, whatever edits follow that do not add
      it again; an update cannot bring it back. */
  lemma DeletedIsNeverReturned(e: Env, rules: seq<Rule>, id: string, edits: seq<(Edit, bool)>,
                               f: Flow, c: Country, cfg: Config, d: Decision)
    requires T.Build(e, rules).Some? && forall i | 0 <= i < |edits| :: !Restores(edits[i].0, id)
    requires Verdict(e, Run(e, Published(e, rules, DeleteRule(id), true), edits), f, c, cfg, d)
    ensures d.ruleId != Some(id)
  {
    DeleteAlwaysBuilds(e, rules, id, true);
    WithoutIsGone(rules, id);
    RunKeepsAbsent(e, Without(rules, id), edits, id);
    hide Without, Run, Verdict, Absent, Restores, T.Build;
    AbsentIsNotNamed(e, Run(e, Without(rules, id), edits), f, c, cfg, d, id);
  }

  lemma AbsentIsNotNamed(e: Env, rules: seq<Rule>, f: Flow, c: Country, cfg: Config, d: Decision, id: string)
    requires Absent(rules, id) && Verdict(e, rules, f, c, cfg, d)
    ensures d.ruleId != Some(id)
  {
    hide Hit, Shadows;
  }

  // ---------- What edits do not keep ----------

  ghost predicate UniqueIds(rules: seq<Rule>) {
    forall i, j | 0 <= i < j < |rules| :: rules[i].id != rules[j].id
  }

  ghost predicate AllPinned(rules: seq<Rule>) {
    forall i | 0 <= i < |rules| :: rules[i].priority == USER_PRIORITY
  }

  /** An addition keeps identifiers apart exactly when its identifier is new; the engine does not ask. Updates
      and deletions keep them apart. */
  lemma IdsStayUnique(e: Env, rules: seq<Rule>, edit: Edit, diskOk: bool)
    requires UniqueIds(rules)
    ensures UniqueIds(Published(e, rules, edit, diskOk)) <==>
              edit.AddRule? && After(e, rules, edit, diskOk).Ok? ==> Absent(rules, Pinned(edit.rule, edit.uuid).id)
  {
    hide T.Build, Trim;
    match edit
    case AddRule(rule, uuid) =>
      var next := rules + [Pinned(rule, uuid)];
      assert next[|rules|] == Pinned(rule, uuid);
      if UniqueIds(next) {
        forall j | 0 <= j < |rules| ensures rules[j].id != Pinned(rule, uuid).id {
          assert next[j] == rules[j];
        }
      }
    case UpdateRule(rule) => PositionIsFirst(rules, rule.id);
    case DeleteRule(id) => WithoutKeepsUnique(rules, id);
  }

  lemma {:induction false} WithoutKeepsUnique(rules: seq<Rule>, id: string)
    requires UniqueIds(rules)
    ensures UniqueIds(Without(rules, id))
  {
    if rules != [] {
      var front := rules[..|rules| - 1];
      WithoutKeepsUnique(front, id);
      WithoutIsGone(front, id);
    }
  }

  /** A list whose rules all have the user priority keeps that property exactly unless an update gives another
      priority: updates do not pin it again. */
  lemma PriorityStaysPinned(e: Env, rules: seq<Rule>, edit: Edit, diskOk: bool)
    requires AllPinned(rules)
    ensures AllPinned(Published(e, rules, edit, diskOk)) <==>
              edit.UpdateRule? && After(e, rules, edit, diskOk).Ok? ==> edit.rule.priority == USER_PRIORITY
  {
    hide T.Build, Trim;
    match edit
    case AddRule(_, _) =>
    case UpdateRule(rule) =>
      PositionIsFirst(rules, rule.id);
      if After(e, rules, edit, diskOk).Ok? {
        var i := Position(rules, rule.id).value;
        assert rules[i := rule][i] == rule;
      }
    case DeleteRule(id) => WithoutIsGone(rules, id);
  }

  /** Every published list builds, so the index of the next edit starts from a good one. */
  lemma {:induction false} PublishedBuilds(e: Env, rules: seq<Rule>, edits: seq<(Edit, bool)>)
    requires T.Build(e, rules).Some?
    ensures T.Build(e, Run(e, rules, edits)).Some?
    decreases |edits|
  {
    hide T.Build;
    if edits != [] {
      PublishedBuilds(e, rules, edits[..|edits| - 1]);
    }
  }

  // ---------- Decisions ----------

  /** No rule matches: the mode decides. */
  function Default(cfg: Config, f: Flow, country: Option<string>): Decision {
    match cfg.mode
    case DirectMode => Decision(Direct, None, "mode=direct")
    case GlobalMode => Decision(Proxy, None, "mode=global")
    case SmartMode =>
      if f.dstIp.None? then Decision(cfg.finalAction, None, "smart:no-ip")
      else if country == Some(GeoIp.PRIVATE) then Decision(Direct, None, "private/lan")
      else if country == Some(Upper(cfg.homeCountry)) then Decision(Direct, None, "smart:home-country")
      else Decision(Proxy, None, "smart:international")
  }

  /** The decision the rule list calls for. */
  ghost predicate Verdict(e: Env, rules: seq<Rule>, f: Flow, c: Country, cfg: Config, d: Decision) {
    || (exists i: nat :: Wins(e, rules, f, c, i)
                         && d == Decision(rules[i].action, Some(rules[i].id), Stage(rules[i].kind)))
    || ((forall j | 0 <= j < |rules| :: !Hit(e, rules[j], rules[j].kind, f, c)) && d == Default(cfg, f, c))
  }

  lemma VerdictIsUnique(e: Env, rules: seq<Rule>, f: Flow, c: Country, cfg: Config, d: Decision, d': Decision)
    requires Verdict(e, rules, f, c, cfg, d) && Verdict(e, rules, f, c, cfg, d')
    ensures d == d'
  {
    hide Matches, Shadows, Stage;
    if i: nat, j: nat :| Wins(e, rules, f, c, i) && Wins(e, rules, f, c, j)
                         && d == Decision(rules[i].action, Some(rules[i].id), Stage(rules[i].kind))
                         && d' == Decision(rules[j].action, Some(rules[j].id), Stage(rules[j].kind)) {
      AtMostOneWins(e, rules, f, c, i, j);
    }
  }

  ghost predicate Unmatched(e: Env, rules: seq<Rule>, f: Flow, c: Country) {
    forall j | 0 <= j < |rules| :: !Hit(e, rules[j], rules[j].kind, f, c)
  }

  /** What happens to traffic that no enabled rule matches. Direct and global mode treat all of it alike. In smart mode
      an address decides: private space and the home country, in any case, go direct and everything else, unknown
      countries included, through the proxy; without an address the configured final action holds. */
  ghost predicate Defaulted(f: Flow, c: Country, cfg: Config, d: Decision) {
    && d.ruleId == None
    && (cfg.mode == DirectMode ==> d.action == Direct && d.reason == "mode=direct")
    && (cfg.mode == GlobalMode ==> d.action == Proxy && d.reason == "mode=global")
    && (cfg.mode == SmartMode && f.dstIp == None ==> d.action == cfg.finalAction && d.reason == "smart:no-ip")
    && (cfg.mode == SmartMode && f.dstIp != None ==>
          && d.action != Block
          && (d.action == Direct <==> c == Some("PRIVATE") || (c != None && c.value == Upper(cfg.homeCountry)))
          && (d.reason == "private/lan" <==> c == Some("PRIVATE"))
          && (d.reason == "smart:home-country" <==>
                c != Some("PRIVATE") && c != None && c.value == Upper(cfg.homeCountry))
          && (d.reason == "smart:international" <==> d.action == Proxy))
  }

  lemma UnmatchedTraffic(e: Env, rules: seq<Rule>, f: Flow, c: Country, cfg: Config, d: Decision)
    requires Verdict(e, rules, f, c, cfg, d)
    ensures Unmatched(e, rules, f, c) ==> Defaulted(f, c, cfg, d)
  {
    hide Upper;
    assert forall i: nat :: Wins(e, rules, f, c, i) ==> Hit(e, rules[i], rules[i].kind, f, c);
    assert "private/lan" != "smart:home-country" && "private/lan" != "smart:international";
    assert "private/lan"[0] == 'p' && "smart:home-country"[6] == 'h' && "smart:international"[6] == 'i';
  }

  /** So in smart mode a private address that no rule matches is never proxied, unless a country file lists a block
      around it at least as long as the built-in one and that country is not at home. */
  lemma PrivateTraffic(e: Env, rules: seq<Rule>, f: Flow, loaded: seq<GeoIp.Entry>, cfg: Config, d: Decision)
    requires f.dstIp != None && cfg.mode == SmartMode && GeoIp.IsPrivate(f.dstIp.value)
    requires forall j | 0 <= j < |loaded| :: loaded[j].country != "PRIVATE"
    requires var c := GeoIp.CountryOf(GeoIp.PrivateEntries() + loaded, f.dstIp.value);
             Verdict(e, rules, f, c, cfg, d) && Unmatched(e, rules, f, c)
    ensures d.reason == "private/lan" <==> !GeoIp.Overridden(loaded, f.dstIp.value)
    ensures d.action == Proxy <==>
              GeoIp.Overridden(loaded, f.dstIp.value)
              && GeoIp.CountryOf(GeoIp.PrivateEntries() + loaded, f.dstIp.value) != Some(Upper(cfg.homeCountry))
  {
    var c := GeoIp.CountryOf(GeoIp.PrivateEntries() + loaded, f.dstIp.value);
    UnmatchedTraffic(e, rules, f, c, cfg, d);
    GeoIp.PrivateUnlessOverridden(loaded, f.dstIp.value);
    hide Upper, GeoIp.Overridden, GeoIp.CountryOf, GeoIp.PrivateEntries, Unmatched, Verdict, GeoIp.IsPrivate;
  }

  /** A rule that was added by a user has an identifier, its own or a fresh one, and a priority of 1000: of the rules
      that match, one without a priority of its own never wins over it. */
  lemma UserRulesComeFirst(e: Env, rules: seq<Rule>, f: Flow, c: Country, i: nat, j: nat, rule: Rule, uuid: string)
    requires Wins(e, rules, f, c, i) && Candidate(e, rules, f, c, j) && rules[j] == Pinned(rule, uuid)
    ensures rules[i].priority >= 1000
    ensures rules[j].id == if rule.id == "" then "rule_" + uuid else rule.id
    ensures rules[j] == rule.(id := rules[j].id, priority := rules[j].priority) && rules[j].priority == 1000
  {
    hide Hit, Shadows, Stage;
    assert EffectivePriority(rules[j]) == 1000;
    assert i != j ==> EffectivePriority(rules[i]) >= EffectivePriority(rules[j]);
  }

  // ---------- The fold over stages ----------

  /** Keep the current winner unless the candidate has a strictly higher priority. */
  function Consider(current: Option<T.M>, candidate: Option<T.M>, tag: string, why: string): (Option<T.M>, string) {
    if candidate.None? then (current, why)
    else if current.None? then (candidate, why + tag)
    else if candidate.value.priority > current.value.priority then (candidate, tag)
    else (current, why)
  }

  /** The fold so far has found the best of these rules, and names its stage. */
  ghost predicate Leads(rules: seq<Rule>, ps: seq<nat>, winner: Option<T.M>, why: string) {
    && (forall i | 0 <= i < |ps| :: ps[i] < |rules|)
    && match Best(rules, ps)
       case None => winner == None && why == ""
       case Some(i) => winner == Some(T.FromRule(rules[i])) && why == Stage(rules[i].kind)
  }

  ghost predicate Staged(rules: seq<Rule>, ps: seq<nat>, tag: string) {
    forall i | 0 <= i < |ps| :: ps[i] < |rules| && Stage(rules[ps[i]].kind) == tag
  }

  lemma ConsiderLeads(rules: seq<Rule>, ps: seq<nat>, qs: seq<nat>, winner: Option<T.M>, why: string,
                      candidate: Option<T.M>, tag: string)
    requires Leads(rules, ps, winner, why)
    requires Staged(rules, qs, tag)
    requires candidate == T.FirstMax(Ms(rules, qs))
    ensures var r := Consider(winner, candidate, tag, why); Leads(rules, ps + qs, r.0, r.1)
  {
    hide EffectivePriority, Stage;
    BestOfParts(rules, ps, qs);
    FirstMaxIsBest(rules, qs);
    if qs != [] {
      var a := BestIsFirstOfHighest(rules, qs);
      assert why == "" ==> why + tag == tag;
    }
    hide Best, T.FirstMax;
  }

  /** One kind's answer, considered after those of all kinds before it. */
  lemma ConsiderKind(e: Env, rules: seq<Rule>, t: T.Tables, n: nat, f: Flow, c: Country,
                     winner: Option<T.M>, why: string, candidate: Option<T.M>)
    requires n < 9 && T.Build(e, rules) == Some(t)
    requires Leads(rules, PicksUpTo(e, rules, n, f, c), winner, why)
    requires T.Answers(e, t, KINDS[n], f, c) == T.ToSeq(candidate)
    ensures var r := Consider(winner, candidate, Stage(KINDS[n]), why);
            Leads(rules, PicksUpTo(e, rules, n + 1, f, c), r.0, r.1)
  {
    hide Picks, T.Answers, Ranks, T.Build, Stage, Consider, Leads;
    var k := KINDS[n];
    var qs := Picks(e, rules, k, f, c);
    TablesAgree(e, rules, k, f, c);
    KindsOfPicks(e, rules, k, f, c);
    assert candidate.Some? ==> T.ToSeq(candidate)[..0] == [];
    assert T.FirstMax(Ms(rules, qs)) == candidate;
    ConsiderLeads(rules, PicksUpTo(e, rules, n, f, c), qs, winner, why, candidate, Stage(k));
  }

  lemma KindsOfPicks(e: Env, rules: seq<Rule>, k: Kind, f: Flow, c: Country)
    ensures Staged(rules, Picks(e, rules, k, f, c), Stage(k))
  {
    PicksAreHits(e, rules, k, f, c);
    hide Picks, Matches, Stage;
  }

  /** The four domain kinds, whose answers are folded first among themselves. */
  lemma ConsiderDomain(e: Env, rules: seq<Rule>, t: T.Tables, f: Flow, c: Country,
                       winner: Option<T.M>, why: string, candidate: Option<T.M>)
    requires T.Build(e, rules) == Some(t)
    requires Leads(rules, PicksUpTo(e, rules, 1, f, c), winner, why)
    requires candidate == if f.domain.None? then None else T.FirstMax(RuleIndex.DomainAnswers(e, t, f.domain.value))
    ensures var r := Consider(winner, candidate, "domain", why);
            Leads(rules, PicksUpTo(e, rules, 5, f, c), r.0, r.1)
  {
    hide Picks, T.FirstMax, Consider, Leads;
    var qs := DomainPicks(e, rules, f, c);
    DomainAnswersArePicks(e, rules, t, f, c);
    DomainPicksAreNext(e, rules, f, c);
    FirstMaxOfNone();
    hide PicksUpTo, DomainPicks, RuleIndex.DomainAnswers;
    ConsiderLeads(rules, PicksUpTo(e, rules, 1, f, c), qs, winner, why, candidate, "domain");
  }

  lemma FirstMaxOfNone()
    ensures T.FirstMax([]) == None
  {
  }

  /** The picks of the four domain kinds. */
  function DomainPicks(e: Env, rules: seq<Rule>, f: Flow, c: Country): (qs: seq<nat>)
    ensures forall i | 0 <= i < |qs| :: qs[i] < |rules|
  {
    Picks(e, rules, Domain, f, c) + Picks(e, rules, DomainSuffix, f, c)
    + Picks(e, rules, DomainKeyword, f, c) + Picks(e, rules, DomainRegex, f, c)
  }

  lemma DomainPicksAreNext(e: Env, rules: seq<Rule>, f: Flow, c: Country)
    ensures PicksUpTo(e, rules, 5, f, c) == PicksUpTo(e, rules, 1, f, c) + DomainPicks(e, rules, f, c)
    ensures Staged(rules, DomainPicks(e, rules, f, c), "domain")
  {
    hide Picks;
    KindsOfPicks(e, rules, Domain, f, c);
    KindsOfPicks(e, rules, DomainSuffix, f, c);
    KindsOfPicks(e, rules, DomainKeyword, f, c);
    KindsOfPicks(e, rules, DomainRegex, f, c);
    Regroup(PicksUpTo(e, rules, 1, f, c), Picks(e, rules, Domain, f, c), Picks(e, rules, DomainSuffix, f, c),
            Picks(e, rules, DomainKeyword, f, c), Picks(e, rules, DomainRegex, f, c));
    FourMore(e, rules, f, c);
  }

  lemma Regroup<X>(p: seq<X>, a: seq<X>, b: seq<X>, c: seq<X>, d: seq<X>)
    ensures p + a + b + c + d == p + (a + b + c + d)
  {
  }

  lemma FourMore(e: Env, rules: seq<Rule>, f: Flow, c: Country)
    ensures PicksUpTo(e, rules, 5, f, c)
         == PicksUpTo(e, rules, 1, f, c) + Picks(e, rules, Domain, f, c) + Picks(e, rules, DomainSuffix, f, c)
            + Picks(e, rules, DomainKeyword, f, c) + Picks(e, rules, DomainRegex, f, c)
  {
    hide Picks;
    var p2, p3 := PicksUpTo(e, rules, 2, f, c), PicksUpTo(e, rules, 3, f, c);
    assert p2 == PicksUpTo(e, rules, 1, f, c) + Picks(e, rules, Domain, f, c);
    assert p3 == p2 + Picks(e, rules, DomainSuffix, f, c);
    assert PicksUpTo(e, rules, 4, f, c) == p3 + Picks(e, rules, DomainKeyword, f, c);
  }

  lemma DomainAnswersArePicks(e: Env, rules: seq<Rule>, t: T.Tables, f: Flow, c: Country)
    requires T.Build(e, rules) == Some(t)
    ensures Ms(rules, DomainPicks(e, rules, f, c)) == if f.domain.None? then [] else RuleIndex.DomainAnswers(e, t, f.domain.value)
  {
    hide Picks, Ranks, T.Build;
    TablesAgree(e, rules, Domain, f, c);
    TablesAgree(e, rules, DomainSuffix, f, c);
    TablesAgree(e, rules, DomainKeyword, f, c);
    TablesAgree(e, rules, DomainRegex, f, c);
    MsAppend(rules, Picks(e, rules, Domain, f, c), Picks(e, rules, DomainSuffix, f, c));
    MsAppend(rules, Picks(e, rules, Domain, f, c) + Picks(e, rules, DomainSuffix, f, c),
             Picks(e, rules, DomainKeyword, f, c));
    MsAppend(rules, Picks(e, rules, Domain, f, c) + Picks(e, rules, DomainSuffix, f, c)
                    + Picks(e, rules, DomainKeyword, f, c), Picks(e, rules, DomainRegex, f, c));
    hide Ms;
  }

  lemma MsAppend(rules: seq<Rule>, ps: seq<nat>, qs: seq<nat>)
    requires forall i | 0 <= i < |ps| :: ps[i] < |rules|
    requires forall i | 0 <= i < |qs| :: qs[i] < |rules|
    ensures Ms(rules, ps + qs) == Ms(rules, ps) + Ms(rules, qs)
  {
  }

  // ---------- The engine ----------

  class RoutingEngine {
    const e: Env
    const geo: GeoIp.GeoTable
    var rules: seq<Rule>
    var index: RuleIndex.RuleIndex
    var cfg: Config
    /** The rules file. */
    var file: seq<Rule>

    /** The published index is the one built from the listed rules, and the file agrees. */
    ghost predicate Valid()
      reads this, geo, geo.v4, geo.v6, geo.v4.at.Values, geo.v6.at.Values
      reads index, index.suffix, index.cidr, index.cidr.v4, index.cidr.v6
      reads index.cidr.v4.at.Values, index.cidr.v6.at.Values
    {
      geo.Valid() && index.Valid() && T.Build(e, rules) == Some(index.View()) && file == rules
    }

    constructor (e: Env, geo: GeoIp.GeoTable, rules: seq<Rule>, index: RuleIndex.RuleIndex, cfg: Config)
      requires geo.Valid() && index.Valid() && T.Build(e, rules) == Some(index.View())
      ensures Valid() && this.rules == rules && this.e == e && this.geo == geo && this.cfg == cfg
    {
      this.e, this.geo, this.rules, this.index, this.cfg, this.file := e, geo, rules, index, cfg, rules;
    }

    static method LoadGeo(e: Env, countries: seq<(string, seq<string>)>) returns (geo: GeoIp.GeoTable)
      ensures fresh(geo) && fresh(geo.Repr()) && geo.Valid()
      ensures geo.entries == GeoIp.PrivateEntries() + GeoIp.DirEntries(e, countries)
    {
      hide GeoIp.DirEntries, GeoIp.PrivateEntries, GeoIp.GeoTable.Valid;
      geo := GeoIp.GeoTable.WithPrivate();
      geo.LoadDir(e, countries);
    }

    /** Start-up: null when the stored rules do not build. */
    static method Load(e: Env, file: seq<Rule>, countries: seq<(string, seq<string>)>, cfg: Config)
      returns (engine: RoutingEngine?)
      ensures engine == null <==> T.Build(e, file) == None
      ensures engine != null ==> fresh(engine) && engine.Valid() && engine.rules == file && engine.e == e && engine.cfg == cfg
      ensures engine != null ==> engine.geo.entries == GeoIp.PrivateEntries() + GeoIp.DirEntries(e, countries)
    {
      hide T.Build, GeoIp.DirEntries, GeoIp.PrivateEntries, RuleIndex.RuleIndex.View, RuleIndex.RuleIndex.Valid;
      hide DomainTrie.Shape, DomainTrie.ContentsOf, BitTrie.BitTrie.Valid, BitTrie.BitTrie.Contents, GeoIp.Writes;
      var idx := RuleIndex.RuleIndex.Build(e, file);
      if idx == null {
        return null;
      }
      var geo := LoadGeo(e, countries);
      engine := new RoutingEngine(e, geo, file, idx, cfg);
    }

    /** Validate, write the file, then publish; on an error nothing changes. */
    method Commit(next: seq<Rule>, diskOk: bool) returns (error: Option<Error>)
      requires Valid()
      modifies this
      ensures Valid() && cfg == old(cfg)
      ensures error == if T.Build(e, next).None? then Some(ConfigInvalid) else if !diskOk then Some(Disk) else None
      ensures error.None? ==> rules == next
      ensures error.Some? ==> rules == old(rules) && index == old(index)
    {
      hide T.Build;
      hide DomainTrie.Shape, DomainTrie.ContentsOf, BitTrie.BitTrie.Valid, BitTrie.BitTrie.Contents, GeoIp.Writes;
      hide RuleIndex.RuleIndex.Valid, RuleIndex.RuleIndex.View, GeoIp.GeoTable.Valid;
      var built := RuleIndex.RuleIndex.Build(e, next);
      if built == null {
        return Some(ConfigInvalid);
      }
      if !diskOk {
        return Some(Disk);
      }
      file, index, rules := next, built, next;
      error := None;
    }

    /** Adds a rule at the end, pinned to the user priority. */
    method AddRule(rule: Rule, uuid: string, diskOk: bool) returns (r: Result<Rule, Error>)
      requires Valid()
      modifies this
      ensures Valid() && cfg == old(cfg)
      ensures match After(e, old(rules), Edit.AddRule(rule, uuid), diskOk)
              case Ok(next) => rules == next && r == Ok(Pinned(rule, uuid))
              case Err(x) => rules == old(rules) && index == old(index) && r == Err(x)
    {
      hide T.Build, Trim;
      if Trim(rule.value) == "" {
        return Err(ConfigInvalid);
      }
      var named := rule;
      if named.id == "" {
        named := named.(id := "rule_" + uuid);
      }
      named := named.(priority := USER_PRIORITY);
      var error := Commit(rules + [named], diskOk);
      r := if error.None? then Ok(named) else Err(error.value);
    }

    /** Replaces the first rule of that name as it is given: the priority is not pinned again. */
    method UpdateRule(rule: Rule, diskOk: bool) returns (error: Option<Error>)
      requires Valid()
      modifies this
      ensures Valid() && cfg == old(cfg)
      ensures match After(e, old(rules), Edit.UpdateRule(rule), diskOk)
              case Ok(next) => rules == next && error == None
              case Err(x) => rules == old(rules) && index == old(index) && error == Some(x)
    {
      hide T.Build;
      hide DomainTrie.Shape, DomainTrie.ContentsOf, BitTrie.BitTrie.Valid, BitTrie.BitTrie.Contents, GeoIp.Writes;
      PositionIsFirst(rules, rule.id);
      for i := 0 to |rules|
        invariant forall j | 0 <= j < i :: rules[j].id != rule.id
        invariant Valid() && rules == old(rules) && index == old(index) && cfg == old(cfg)
      {
        if rules[i].id == rule.id {
          error := Commit(rules[i := rule], diskOk);
          return;
        }
      }
      error := Some(NotFound);
    }

    method DeleteRule(id: string, diskOk: bool) returns (error: Option<Error>)
      requires Valid()
      modifies this
      ensures Valid() && cfg == old(cfg)
      ensures match After(e, old(rules), Edit.DeleteRule(id), diskOk)
              case Ok(next) => rules == next && error == None
              case Err(x) => rules == old(rules) && index == old(index) && error == Some(x)
    {
      hide T.Build;
      hide DomainTrie.Shape, DomainTrie.ContentsOf, BitTrie.BitTrie.Valid, BitTrie.BitTrie.Contents, GeoIp.Writes;
      error := Commit(Without(rules, id), diskOk);
    }

    ghost function CountryFor(f: Flow): Country
      reads this, geo
    {
      if f.dstIp.Some? then GeoIp.CountryOf(geo.entries, f.dstIp.value) else None
    }

    /** The first two stages of `Decide`: process and domain. */
    method AskNames(f: Flow) returns (winner: Option<T.M>, why: string)
      requires Valid()
      ensures Leads(rules, PicksUpTo(e, rules, 5, f, CountryFor(f)), winner, why)
    {
      hide DomainTrie.Shape, DomainTrie.ContentsOf, BitTrie.BitTrie.Valid, BitTrie.BitTrie.Contents, GeoIp.Writes;
      hide RuleIndex.RuleIndex.Valid, GeoIp.GeoTable.Valid, CountryFor;
      hide T.Build, PicksUpTo, Leads, Consider, RuleIndex.DomainAnswers, BaseName;
      ghost var t, c := index.View(), CountryFor(f);
      NothingLeads(e, rules, f, c);
      var m: Option<T.M> := None;
      if f.process.Some? {
        m := index.MatchProcess(f.process.value);
      }
      ConsiderKind(e, rules, t, 0, f, c, None, "", m);
      var r := Consider(None, m, "process", "");
      m := None;
      if f.domain.Some? {
        m := index.MatchDomain(e, f.domain.value);
      }
      ConsiderDomain(e, rules, t, f, c, r.0, r.1, m);
      r := Consider(r.0, m, "domain", r.1);
      winner, why := r.0, r.1;
    }

    /** The address stages of `Decide`: block, port and protocol. */
    method AskAddress(f: Flow, current: Option<T.M>, tag: string) returns (winner: Option<T.M>, why: string)
      requires Valid() && Leads(rules, PicksUpTo(e, rules, 5, f, CountryFor(f)), current, tag)
      ensures Leads(rules, PicksUpTo(e, rules, 8, f, CountryFor(f)), winner, why)
    {
      hide DomainTrie.Shape, DomainTrie.ContentsOf, BitTrie.BitTrie.Valid, BitTrie.BitTrie.Contents, GeoIp.Writes;
      hide RuleIndex.RuleIndex.Valid, GeoIp.GeoTable.Valid, CountryFor;
      hide T.Build, PicksUpTo, Leads, Consider, T.IpAnswer, T.PortAnswer, Lower;
      ghost var t, c := index.View(), CountryFor(f);
      var m: Option<T.M> := None;
      if f.dstIp.Some? {
        m := index.MatchIp(f.dstIp.value);
      }
      ConsiderKind(e, rules, t, 5, f, c, current, tag, m);
      var r := Consider(current, m, "ip", tag);
      m := None;
      if f.dstPort != 0 {
        m := index.MatchPort(f.dstPort);
      }
      ConsiderKind(e, rules, t, 6, f, c, r.0, r.1, m);
      r := Consider(r.0, m, "port", r.1);
      m := None;
      if f.protocol != "" {
        m := index.MatchProtocol(f.protocol);
      }
      ConsiderKind(e, rules, t, 7, f, c, r.0, r.1, m);
      r := Consider(r.0, m, "protocol", r.1);
      winner, why := r.0, r.1;
    }

    /** The decision for a flow is the one the listed rules call for. */
    method Decide(f: Flow) returns (d: Decision)
      requires Valid()
      ensures Verdict(e, rules, f, CountryFor(f), cfg, d)
      ensures Unmatched(e, rules, f, CountryFor(f)) ==> Defaulted(f, CountryFor(f), cfg, d)
    {
      hide DomainTrie.Shape, DomainTrie.ContentsOf, BitTrie.BitTrie.Valid, BitTrie.BitTrie.Contents, GeoIp.Writes;
      hide T.Build, PicksUpTo, Leads, Consider, Verdict, GeoIp.CountryOf, Upper, Unmatched, Defaulted;
      ghost var t, c := index.View(), CountryFor(f);
      var winner, why := AskNames(f);
      winner, why := AskAddress(f, winner, why);
      var m: Option<T.M>, country: Country := None, None;
      if f.dstIp.Some? {
        country := geo.Country(f.dstIp.value);
        if country.Some? {
          m := index.MatchGeoip(country.value);
        }
      }
      ConsiderKind(e, rules, t, 8, f, c, winner, why, m);
      var r := Consider(winner, m, "geoip", why);
      if r.0.Some? {
        d := Decision(r.0.value.action, Some(r.0.value.ruleId), r.1);
      } else {
        d := Default(cfg, f, country);
      }
      LeaderDecides(e, rules, f, c, cfg, r.0, r.1, d);
      UnmatchedTraffic(e, rules, f, c, cfg, d);
    }
  }

  lemma NothingLeads(e: Env, rules: seq<Rule>, f: Flow, c: Country)
    ensures Leads(rules, PicksUpTo(e, rules, 0, f, c), None, "")
  {
  }

  /** Whoever leads after the last stage decides; if no one does, the default does. */
  lemma LeaderDecides(e: Env, rules: seq<Rule>, f: Flow, c: Country, cfg: Config,
                      winner: Option<T.M>, why: string, d: Decision)
    requires Leads(rules, PicksUpTo(e, rules, 9, f, c), winner, why)
    requires d == if winner.Some? then Decision(winner.value.action, Some(winner.value.ruleId), why)
                  else Default(cfg, f, c)
    ensures Verdict(e, rules, f, c, cfg, d)
  {
    hide Best, PicksUpTo, Wins, Hit, Default, Stage;
    BestWins(e, rules, f, c);
  }
}
