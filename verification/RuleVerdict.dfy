/** From the answers of all tables to the one rule that decides. */
module RuleVerdict {
  import opened Prelude
  import opened Rules
  import opened RuleTables
  import opened RuleScan

  /** The kinds in the order of consultation. */
  const KINDS: seq<Kind> := [Process, Domain, DomainSuffix, DomainKeyword, DomainRegex, IpCidr, Port, Protocol, Geoip]

  /** The picks of the first `n` kinds. */
  function PicksUpTo(e: Env, rules: seq<Rule>, n: nat, f: Flow, c: Country): (ps: seq<nat>)
    requires n <= 9
    ensures forall i | 0 <= i < |ps| :: ps[i] < |rules|
  {
    if n == 0 then [] else PicksUpTo(e, rules, n - 1, f, c) + Picks(e, rules, KINDS[n - 1], f, c)
  }

  /** The first of the listed rules with the highest priority. */
  function Best(rules: seq<Rule>, ps: seq<nat>): (b: Option<nat>)
    requires forall i | 0 <= i < |ps| :: ps[i] < |rules|
    ensures b.Some? ==> b.value < |rules|
    ensures b.None? <==> ps == []
  {
    if ps == [] then None
    else
      var b := Best(rules, ps[..|ps| - 1]);
      var last := ps[|ps| - 1];
      if b.Some? && EffectivePriority(rules[b.value]) >= EffectivePriority(rules[last]) then b else Some(last)
  }

  lemma {:induction false} BestIsFirstOfHighest(rules: seq<Rule>, ps: seq<nat>) returns (a: nat)
    requires ps != [] && forall i | 0 <= i < |ps| :: ps[i] < |rules|
    ensures a < |ps| && Best(rules, ps) == Some(ps[a])
    ensures forall b | 0 <= b < a :: EffectivePriority(rules[ps[b]]) < EffectivePriority(rules[ps[a]])
    ensures forall b | a <= b < |ps| :: EffectivePriority(rules[ps[b]]) <= EffectivePriority(rules[ps[a]])
  {
    hide EffectivePriority;
    var n := |ps| - 1;
    if n == 0 {
      a := 0;
    } else {
      a := BestIsFirstOfHighest(rules, ps[..n]);
      if EffectivePriority(rules[ps[a]]) < EffectivePriority(rules[ps[n]]) {
        a := n;
      }
    }
  }

  /** Folding two parts separately and then their winners is folding the whole. */
  lemma {:induction false} BestOfParts(rules: seq<Rule>, ps: seq<nat>, qs: seq<nat>)
    requires forall i | 0 <= i < |ps| :: ps[i] < |rules|
    requires forall i | 0 <= i < |qs| :: qs[i] < |rules|
    ensures Best(rules, ps + qs)
         == match (Best(rules, ps), Best(rules, qs))
            case (None, q) => q
            case (p, None) => p
            case (Some(i), Some(j)) =>
              if EffectivePriority(rules[j]) > EffectivePriority(rules[i]) then Some(j) else Some(i)
    decreases |qs|
  {
    hide EffectivePriority;
    if qs == [] {
      assert ps + qs == ps;
    } else {
      assert (ps + qs)[..|ps + qs| - 1] == ps + qs[..|qs| - 1];
      BestOfParts(rules, ps, qs[..|qs| - 1]);
    }
  }

  /** Folding the table entries is folding the rules they came from. */
  lemma {:induction false} FirstMaxIsBest(rules: seq<Rule>, ps: seq<nat>)
    requires forall i | 0 <= i < |ps| :: ps[i] < |rules|
    ensures FirstMax(Ms(rules, ps)) == match Best(rules, ps) case None => None case Some(i) => Some(FromRule(rules[i]))
    decreases |ps|
  {
    hide EffectivePriority;
    if ps != [] {
      var front := ps[..|ps| - 1];
      FirstMaxIsBest(rules, front);
      assert Ms(rules, ps)[..|ps| - 1] == Ms(rules, front);
    }
  }

  // ---------- The verdict ----------

  lemma {:induction false} PicksUpToAreCandidates(e: Env, rules: seq<Rule>, n: nat, f: Flow, c: Country, i: nat)
    requires n <= 9
    ensures i in PicksUpTo(e, rules, n, f, c) <==> Candidate(e, rules, f, c, i) && Rank(rules[i].kind) < n
  {
    hide Candidate, Picks;
    if n > 0 {
      PicksUpToAreCandidates(e, rules, n - 1, f, c, i);
      PicksAreCandidates(e, rules, KINDS[n - 1], f, c, i);
      KindOfRank(n - 1);
    }
  }

  lemma KindOfRank(n: nat)
    requires n < 9
    ensures forall k: Kind :: k == KINDS[n] <==> Rank(k) == n
  {
  }

  /** In the order of consultation, and of kinds ranked below `n`. */
  ghost predicate Ordered(rules: seq<Rule>, ps: seq<nat>, n: nat)
    requires forall i | 0 <= i < |ps| :: ps[i] < |rules|
  {
    && (forall a | 0 <= a < |ps| :: Rank(rules[ps[a]].kind) < n)
    && (forall a, b | 0 <= a < b < |ps| :: Before(rules, ps[a], ps[b]))
  }

  lemma OrderedAppend(rules: seq<Rule>, ps: seq<nat>, qs: seq<nat>, n: nat)
    requires forall i | 0 <= i < |ps| :: ps[i] < |rules|
    requires forall i | 0 <= i < |qs| :: qs[i] < |rules|
    requires Ordered(rules, ps, n) && Ordered(rules, qs, n + 1)
    requires forall a | 0 <= a < |qs| :: Rank(rules[qs[a]].kind) == n
    ensures Ordered(rules, ps + qs, n + 1)
  {
    hide Rank;
  }

  lemma {:induction false} PicksAreOrdered(e: Env, rules: seq<Rule>, n: nat, f: Flow, c: Country)
    requires n <= 9
    ensures Ordered(rules, PicksUpTo(e, rules, n, f, c), n)
  {
    hide Picks, Hit, Rank;
    if n > 0 {
      PicksAreOrdered(e, rules, n - 1, f, c);
      LaterKindsComeLater(e, rules, n, f, c);
      var qs := Picks(e, rules, KINDS[n - 1], f, c);
      OrderedAppend(rules, PicksUpTo(e, rules, n - 1, f, c), qs, n - 1);
    }
  }

  lemma LaterKindsComeLater(e: Env, rules: seq<Rule>, n: nat, f: Flow, c: Country)
    requires 0 < n <= 9
    ensures var ps := Picks(e, rules, KINDS[n - 1], f, c);
            Ordered(rules, ps, n) && forall a | 0 <= a < |ps| :: Rank(rules[ps[a]].kind) == n - 1
  {
    PicksAreHits(e, rules, KINDS[n - 1], f, c);
    KindOfRank(n - 1);
    hide Picks, Matches, Rank;
  }

  /** What the fold leaves is the rule that ought to win; it leaves none only when no rule matches. */
  lemma BestWins(e: Env, rules: seq<Rule>, f: Flow, c: Country)
    ensures match Best(rules, PicksUpTo(e, rules, 9, f, c))
            case Some(i) => Wins(e, rules, f, c, i)
            case None => forall j | 0 <= j < |rules| :: !Hit(e, rules[j], rules[j].kind, f, c)
  {
    var ps := PicksUpTo(e, rules, 9, f, c);
    if ps == [] {
      NoCandidateNoHit(e, rules, f, c);
    } else {
      var a := BestIsFirstOfHighest(rules, ps);
      FirstOfHighestWins(e, rules, f, c, a);
    }
  }

  lemma FirstOfHighestWins(e: Env, rules: seq<Rule>, f: Flow, c: Country, a: nat)
    requires var ps := PicksUpTo(e, rules, 9, f, c);
             && a < |ps|
             && (forall b | 0 <= b < a :: EffectivePriority(rules[ps[b]]) < EffectivePriority(rules[ps[a]]))
             && (forall b | a <= b < |ps| :: EffectivePriority(rules[ps[b]]) <= EffectivePriority(rules[ps[a]]))
    ensures Wins(e, rules, f, c, PicksUpTo(e, rules, 9, f, c)[a])
  {
    hide Candidate, PicksUpTo, EffectivePriority, Before;
    var ps := PicksUpTo(e, rules, 9, f, c);
    PicksAreOrdered(e, rules, 9, f, c);
    PicksUpToAreCandidates(e, rules, 9, f, c, ps[a]);
    forall j | 0 <= j < |rules| && j != ps[a] && Candidate(e, rules, f, c, j)
      ensures j in ps
    {
      PicksUpToAreCandidates(e, rules, 9, f, c, j);
    }
  }

  lemma NoCandidateNoHit(e: Env, rules: seq<Rule>, f: Flow, c: Country)
    requires PicksUpTo(e, rules, 9, f, c) == []
    ensures forall j | 0 <= j < |rules| :: !Hit(e, rules[j], rules[j].kind, f, c)
  {
    forall j | 0 <= j < |rules| ensures !Hit(e, rules[j], rules[j].kind, f, c) {
      var k := rules[j].kind;
      NoPicksOfKind(e, rules, 9, f, c, k);
      if Listed(k) {
        if Hit(e, rules[j], k, f, c) {
          ListedPicksEveryHit(e, rules, k, f, c, j);
        }
      } else {
        PickDominates(e, rules, k, f, c);
      }
    }
  }

  lemma {:induction false} NoPicksOfKind(e: Env, rules: seq<Rule>, n: nat, f: Flow, c: Country, k: Kind)
    requires n <= 9 && PicksUpTo(e, rules, n, f, c) == [] && Rank(k) < n
    ensures Picks(e, rules, k, f, c) == []
  {
    hide Picks;
    KindOfRank(n - 1);
    if k != KINDS[n - 1] {
      NoPicksOfKind(e, rules, n - 1, f, c, k);
    }
  }

  // ---------- The priority ladder ----------

  /** With no priorities set, the kinds are consulted from the most to the least important:
      no candidate of an earlier kind loses to one of a later kind. */
  lemma LadderFollowsStages(e: Env, rules: seq<Rule>, f: Flow, c: Country, i: nat)
    requires forall j | 0 <= j < |rules| :: rules[j].priority <= 0
    ensures Wins(e, rules, f, c, i) <==>
            && Candidate(e, rules, f, c, i)
            && forall j | 0 <= j < |rules| && j != i && Candidate(e, rules, f, c, j) :: Before(rules, i, j)
  {
    forall j, k | 0 <= j < |rules| && 0 <= k < |rules| && Rank(rules[j].kind) <= Rank(rules[k].kind)
      ensures EffectivePriority(rules[j]) >= EffectivePriority(rules[k])
    {
    }
    hide Candidate, EffectivePriority;
  }
}
