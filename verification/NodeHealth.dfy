/** Node statistics from probes, the score made of them, and the selection of the best node.
    Floating-point numbers are modelled as reals. */
module NodeHealth {
  import opened Prelude

  const SPEED_REFERENCE: real := 104857600.0

  function Clamp(x: real, lo: real, hi: real): real {
    if x < lo then lo else if x > hi then hi else x
  }

  /** `round`: to the nearest integer, halves away from zero. */
  function Round(x: real): int {
    if x >= 0.0 then (x + 0.5).Floor else -((-x + 0.5).Floor)
  }

  // ---------- The score ----------

  datatype Stats = Stats(latency: int, loss: real, downloadSpeed: nat, availability: real, success: nat, failure: nat)

  function LatencyScore(latency: int): real {
    Clamp((300.0 - latency as real) / 300.0, 0.0, 1.0) * 100.0
  }

  function FailureScore(success: nat, failure: nat): real {
    if success + failure == 0 then 100.0 else (1.0 - failure as real / (success + failure) as real) * 100.0
  }

  function SpeedScore(speed: nat): real {
    var ratio := speed as real / SPEED_REFERENCE;
    (if ratio <= 1.0 then ratio else 1.0) * 100.0
  }

  function Score(s: Stats): real {
    LatencyScore(s.latency) * 0.30
    + (1.0 - Clamp(s.loss, 0.0, 1.0)) * 100.0 * 0.25
    + Clamp(s.availability, 0.0, 1.0) * 100.0 * 0.20
    + SpeedScore(s.downloadSpeed) * 0.15
    + FailureScore(s.success, s.failure) * 0.10
  }

  lemma Share(part: nat, total: nat)
    requires part <= total && total > 0
    ensures 0.0 <= part as real / total as real <= 1.0
  {
  }

  lemma FailureScoreIsBounded(success: nat, failure: nat)
    ensures 0.0 <= FailureScore(success, failure) <= 100.0
  {
    if success + failure > 0 {
      Share(failure, success + failure);
    }
  }

  /** Whatever the inputs, the score is between 0 and 100. */
  lemma ScoreIsBounded(s: Stats)
    ensures 0.0 <= Score(s) <= 100.0
  {
    FailureScoreIsBounded(s.success, s.failure);
    hide FailureScore;
    assert 0.0 <= LatencyScore(s.latency) <= 100.0;
    assert 0.0 <= SpeedScore(s.downloadSpeed) <= 100.0;
  }

  /** What each respect is worth, whatever the others are: latency up to 30 points, 0.1 for each millisecond below 300;
      packet loss 25, availability 20 and the share of failures 10, in proportion; throughput 15, in proportion up
      to 100 MiB a second. A node that is best in all has 100, one that is worst in all 0. */
  lemma ScoreShares(s: Stats, latency: int, loss: real, availability: real, speed: nat)
    requires 0 <= latency <= 300 && 0 <= s.latency <= 300
    requires 0.0 <= loss <= 1.0 && 0.0 <= s.loss <= 1.0 && 0.0 <= availability <= 1.0 && 0.0 <= s.availability <= 1.0
    requires speed <= 104857600 && s.downloadSpeed <= 104857600
    ensures Score(s.(latency := latency)) - Score(s) == (s.latency - latency) as real * 0.1
    ensures Score(s.(loss := loss)) - Score(s) == (s.loss - loss) * 25.0
    ensures Score(s.(availability := availability)) - Score(s) == (availability - s.availability) * 20.0
    ensures Score(s.(downloadSpeed := speed)) - Score(s) == (speed as real - s.downloadSpeed as real) * 15.0 / 104857600.0
    ensures Score(s.(success := 1, failure := 0)) - Score(s.(success := 0, failure := 1)) == 10.0
    ensures Score(s.(success := 0, failure := 0)) == Score(s.(success := 1, failure := 0))
    ensures s.success + s.failure > 0 ==>
              Score(s) - Score(s.(success := 0, failure := 1)) == (s.success as real / (s.success + s.failure) as real) * 10.0
    ensures Score(Stats(300, 1.0, 0, 0.0, 0, 1)) == 0.0
  {
    if s.success + s.failure > 0 {
      SharesAddUp(s.failure, s.success);
    }
  }

  /** Beyond those ranges nothing more is gained or lost. */
  lemma ScoreSaturates(s: Stats)
    ensures s.latency >= 300 ==> Score(s) == Score(s.(latency := 300))
    ensures s.latency <= 0 ==> Score(s) == Score(s.(latency := 0))
    ensures s.downloadSpeed >= 104857600 ==> Score(s) == Score(s.(downloadSpeed := 104857600))
  {
    hide FailureScore;
  }

  /** No better in any respect. */
  predicate NoBetter(a: Stats, b: Stats) {
    && a.latency >= b.latency && a.loss >= b.loss && a.availability <= b.availability
    && a.downloadSpeed <= b.downloadSpeed && FailureScore(a.success, a.failure) <= FailureScore(b.success, b.failure)
  }

  /** A node that is no better in any respect never scores higher. */
  lemma ScoreIsMonotone(a: Stats, b: Stats)
    requires NoBetter(a, b)
    ensures Score(a) <= Score(b)
  {
    hide FailureScore;
    assert LatencyScore(a.latency) <= LatencyScore(b.latency);
    assert SpeedScore(a.downloadSpeed) <= SpeedScore(b.downloadSpeed);
  }

  // ---------- Probes ----------

  datatype Probe = Lost | Unmeasured | Answered(latency: int)

  function Successes(ps: seq<Probe>): nat {
    if ps == [] then 0 else Successes(ps[..|ps| - 1]) + if ps[|ps| - 1].Lost? then 0 else 1
  }

  /** The smoothed latency stays within these bounds of the measured ones. */
  ghost predicate Within(latency: int, ps: seq<Probe>) {
    && (exists i | 0 <= i < |ps| && ps[i].Answered? :: ps[i].latency <= latency)
    && (exists i | 0 <= i < |ps| && ps[i].Answered? :: latency <= ps[i].latency)
  }

  predicate NoneAnswered(ps: seq<Probe>) {
    forall i | 0 <= i < |ps| :: !ps[i].Answered?
  }

  predicate Positive(ps: seq<Probe>) {
    forall i | 0 <= i < |ps| && ps[i].Answered? :: ps[i].latency >= 1
  }

  /** Zero stands for "never measured". */
  ghost predicate Smooth(latency: int, ps: seq<Probe>) {
    if NoneAnswered(ps) then latency == 0 else latency >= 1 && Within(latency, ps)
  }

  function Smoothed(latency: int, sample: int): int {
    if latency == 0 then sample else Round(latency as real * 0.7 + sample as real * 0.3)
  }

  /** Smoothing two positive latencies lands between them. */
  lemma SmoothedIsBetween(a: int, b: int)
    requires a >= 1 && b >= 1
    ensures Smoothed(a, b) >= 1
    ensures a <= b ==> a <= Smoothed(a, b) <= b
    ensures b <= a ==> b <= Smoothed(a, b) <= a
  {
    var x := a as real * 0.7 + b as real * 0.3;
    if a <= b {
      assert a as real <= x <= b as real;
    } else {
      assert b as real <= x <= a as real;
    }
  }

  /** Rounding goes to a nearest integer, and from the middle away from zero. */
  lemma RoundMeans(x: real, n: nat)
    ensures x - 0.5 <= Round(x) as real <= x + 0.5 && Round(-x) == -Round(x)
    ensures Round(n as real + 0.5) == n + 1
  {
  }

  /** Seven tenths of the old latency and three of the new, to the nearest integer; the first counts in full. */
  lemma SmoothedMeans(before: nat, sample: nat)
    ensures Smoothed(before, sample) == if before == 0 then sample else (7 * before + 3 * sample + 5) / 10
  {
    var n := 7 * before + 3 * sample;
    assert before as real * 0.7 + sample as real * 0.3 == n as real / 10.0;
    var q := (n + 5) / 10;
    assert q as real <= n as real / 10.0 + 0.5 < q as real + 1.0;
  }

  /** The smoothed latency of a run of probes. */
  function LatencyOf(ps: seq<Probe>): int {
    if ps == [] then 0
    else match ps[|ps| - 1]
      case Answered(latency) => Smoothed(LatencyOf(ps[..|ps| - 1]), latency)
      case _ => LatencyOf(ps[..|ps| - 1])
  }

  class NodeStats {
    var stats: Stats
    var score: real
    var lastTest: int
    /** All probes so far, oldest first. */
    ghost var probes: seq<Probe>

    /** Holds of a node that probes alone have touched. The prober reports latencies of at least 1;
        of others nothing is said about the smoothed one. */
    ghost predicate Valid()
      reads this
    {
      && stats.success + stats.failure == |probes| && stats.success == Successes(probes)
      && stats.latency == LatencyOf(probes)
      && (probes != [] ==>
            && stats.loss == stats.failure as real / |probes| as real
            && stats.availability == stats.success as real / |probes| as real
            && stats.loss + stats.availability == 1.0
            && score == Score(stats) && 0.0 <= score <= 100.0)
      && (Positive(probes) ==> Smooth(stats.latency, probes))
    }

    constructor ()
      ensures Valid() && probes == []
    {
      stats, score, lastTest, probes := Stats(0, 0.0, 0, 0.0, 0, 0), 0.0, 0, [];
    }

    method RecordProbe(ok: bool, latency: Option<int>, at: int)
      requires Valid()
      modifies this
      ensures Valid() && lastTest == at
      ensures probes == old(probes) + [if !ok then Lost else if latency.None? then Unmeasured else Answered(latency.value)]
    {
      ghost var before, smooth := probes, stats.latency;
      if ok {
        stats := stats.(success := stats.success + 1);
        if latency.Some? {
          stats := stats.(latency := Smoothed(stats.latency, latency.value));
        }
      } else {
        stats := stats.(failure := stats.failure + 1);
      }
      var total := stats.success + stats.failure;
      stats := stats.(loss := stats.failure as real / total as real, availability := stats.success as real / total as real);
      lastTest := at;
      score := Score(stats);
      probes := probes + [if !ok then Lost else if latency.None? then Unmeasured else Answered(latency.value)];
      assert probes[..|before|] == before;
      hide Score, Smoothed;
      SharesAddUp(stats.failure, stats.success);
      ScoreIsBounded(stats);
      if Positive(probes) {
        FrontIsPositive(before, probes[|before|]);
        if ok && latency.Some? {
          SmoothedStaysWithin(before, smooth, latency.value);
        } else {
          StaysWithin(before, smooth, probes[|before|]);
        }
      }
    }
  }

  lemma FrontIsPositive(ps: seq<Probe>, p: Probe)
    requires Positive(ps + [p])
    ensures Positive(ps) && (p.Answered? ==> p.latency >= 1)
  {
    assert (ps + [p])[|ps|] == p;
    assert forall i | 0 <= i < |ps| :: (ps + [p])[i] == ps[i];
  }

  lemma SharesAddUp(a: nat, b: nat)
    requires a + b > 0
    ensures a as real / (a + b) as real + b as real / (a + b) as real == 1.0
  {
  }

  lemma SmoothedStaysWithin(ps: seq<Probe>, latency: int, sample: int)
    requires sample >= 1
    requires Smooth(latency, ps)
    ensures Smooth(Smoothed(latency, sample), ps + [Answered(sample)])
  {
    var all := ps + [Answered(sample)];
    var n := |ps|;
    assert all[n] == Answered(sample);
    if latency == 0 {
      assert Smoothed(latency, sample) == sample;
    } else {
      SmoothedIsBetween(latency, sample);
      hide Smoothed;
      var i :| 0 <= i < n && ps[i].Answered? && ps[i].latency <= latency;
      var j :| 0 <= j < n && ps[j].Answered? && latency <= ps[j].latency;
      assert all[i] == ps[i] && all[j] == ps[j];
    }
  }

  lemma StaysWithin(ps: seq<Probe>, latency: int, p: Probe)
    requires !p.Answered?
    requires Smooth(latency, ps)
    ensures Smooth(latency, ps + [p])
  {
    var all := ps + [p];
    assert forall i | 0 <= i < |ps| :: all[i] == ps[i];
    if !NoneAnswered(ps) {
      var i :| 0 <= i < |ps| && ps[i].Answered? && ps[i].latency <= latency;
      var j :| 0 <= j < |ps| && ps[j].Answered? && latency <= ps[j].latency;
      assert all[i].latency <= latency <= all[j].latency;
    }
  }

  // ---------- Selection ----------

  /** A node's identifier and score; the service drops scores that are not finite. */
  datatype Ranked = Ranked(id: string, score: real)

  /** `sort_by`, highest score first and stable: an earlier node stays before its equals. */
  function SortDescending(rs: seq<Ranked>): seq<Ranked> {
    if rs == [] then [] else Insert(rs[0], SortDescending(rs[1..]))
  }

  function Insert(r: Ranked, sorted: seq<Ranked>): seq<Ranked> {
    if sorted == [] || sorted[0].score <= r.score then [r] + sorted else [sorted[0]] + Insert(r, sorted[1..])
  }

  /** The first of the highest scores. */
  ghost predicate IsBest(rs: seq<Ranked>, i: nat) {
    && i < |rs| && (forall j | 0 <= j < i :: rs[j].score < rs[i].score)
    && forall j | i <= j < |rs| :: rs[j].score <= rs[i].score
  }

  lemma {:induction false} HeadIsBest(rs: seq<Ranked>) returns (i: nat)
    requires rs != []
    ensures IsBest(rs, i) && SortDescending(rs) != [] && SortDescending(rs)[0] == rs[i]
  {
    if |rs| == 1 {
      i := 0;
    } else {
      i := HeadIsBest(rs[1..]);
      assert forall j | 0 < j < |rs| :: rs[j] == rs[1..][j - 1];
      i := if rs[i + 1].score <= rs[0].score then 0 else i + 1;
    }
  }

  /** The score of the first node of that name; 0 for a node that is not listed. */
  function ScoreOf(rs: seq<Ranked>, id: string): real {
    if rs == [] then 0.0 else if rs[0].id == id then rs[0].score else ScoreOf(rs[1..], id)
  }

  lemma {:induction false} ScoreOfFirst(rs: seq<Ranked>, id: string, i: nat)
    requires i < |rs| && rs[i].id == id && forall j | 0 <= j < i :: rs[j].id != id
    ensures ScoreOf(rs, id) == rs[i].score
  {
    if i > 0 {
      assert forall j | 0 <= j < i - 1 :: rs[1..][j] == rs[j + 1];
      ScoreOfFirst(rs[1..], id, i - 1);
    }
  }

  function SelectBest(rs: seq<Ranked>, current: Option<string>, threshold: real): Option<string> {
    var ranked := SortDescending(rs);
    if ranked == [] then None
    else
      var best := ranked[0];
      if current.Some? && best.id != current.value && best.score - ScoreOf(rs, current.value) < threshold
      then current
      else Some(best.id)
  }

  /** The best node is selected unless the current one is another that it beats by less than the threshold. */
  lemma SwitchesOnlyForAGain(rs: seq<Ranked>, current: Option<string>, threshold: real, i: nat)
    requires IsBest(rs, i)
    ensures var r := SelectBest(rs, current, threshold);
            && (r == Some(rs[i].id) || r == current)
            && (current.Some? && rs[i].id != current.value ==>
                  (r == Some(rs[i].id) <==> rs[i].score - ScoreOf(rs, current.value) >= threshold))
            && (current.None? ==> r == Some(rs[i].id))
  {
    var k := HeadIsBest(rs);
    hide SortDescending;
    assert k == i;
  }

  /** Asking again with the answer as the current node changes nothing: fixed scores cause at most one switch. */
  lemma SelectionIsIdempotent(rs: seq<Ranked>, current: Option<string>, threshold: real)
    requires rs != []
    ensures var r := SelectBest(rs, current, threshold); SelectBest(rs, r, threshold) == r
  {
    var k := HeadIsBest(rs);
    hide SortDescending;
  }

  /** The selected node is listed, unless it is the current one and no listed node reaches the threshold
      above zero: a current node that is gone is kept while all others score low. */
  lemma SelectedIsListed(rs: seq<Ranked>, current: Option<string>, threshold: real, i: nat)
    requires IsBest(rs, i)
    ensures var r := SelectBest(rs, current, threshold);
            r.Some? && ((exists j | 0 <= j < |rs| :: rs[j].id == r.value)
                        <==> !(current.Some? && NotListed(rs, current.value) && rs[i].score < threshold))
  {
    SwitchesOnlyForAGain(rs, current, threshold, i);
    if current.Some? && NotListed(rs, current.value) {
      ScoreIsZero(rs, current.value);
    }
    hide SelectBest, ScoreOf;
  }

  predicate NotListed(rs: seq<Ranked>, id: string) {
    forall j | 0 <= j < |rs| :: rs[j].id != id
  }

  lemma {:induction false} ScoreIsZero(rs: seq<Ranked>, id: string)
    requires forall j | 0 <= j < |rs| :: rs[j].id == id ==> rs[j].score == 0.0
    ensures ScoreOf(rs, id) == 0.0
  {
    if rs != [] {
      assert forall j | 0 <= j < |rs| - 1 :: rs[1..][j] == rs[j + 1];
      ScoreIsZero(rs[1..], id);
    }
  }

  // ---------- Smart selection ----------

  datatype Node = Node(id: string, enabled: bool)

  /** The nodes that have been measured, with their scores after the final probes. The second listing of
      `smart_select` does not ask again whether a node is enabled. */
  function Measured(nodes: seq<Node>, scores: map<string, real>): seq<Ranked> {
    if nodes == [] then []
    else (if nodes[0].id in scores then [Ranked(nodes[0].id, scores[nodes[0].id])] else []) + Measured(nodes[1..], scores)
  }

  predicate AnyEnabledMeasured(nodes: seq<Node>, before: map<string, real>) {
    exists i | 0 <= i < |nodes| :: nodes[i].enabled && nodes[i].id in before
  }

  function SmartSelect(nodes: seq<Node>, before: map<string, real>, after: map<string, real>,
                       selected: Option<string>, threshold: real): Option<string> {
    if AnyEnabledMeasured(nodes, before) then SelectBest(Measured(nodes, after), selected, threshold) else None
  }

  /** Nothing is selected exactly when no enabled node had been measured before the final probes, or none at all has
      been after them. */
  lemma NothingToSelect(nodes: seq<Node>, before: map<string, real>, after: map<string, real>,
                        selected: Option<string>, threshold: real)
    ensures SmartSelect(nodes, before, after, selected, threshold) == None <==>
              || (forall j | 0 <= j < |nodes| && nodes[j].enabled :: nodes[j].id !in before)
              || (forall j | 0 <= j < |nodes| :: nodes[j].id !in after)
  {
    var rs := Measured(nodes, after);
    if rs != [] {
      var i := HeadIsBest(rs);
      SwitchesOnlyForAGain(rs, selected, threshold, i);
      MeasuredAreNodes(nodes, after, i);
    }
    if j :| 0 <= j < |nodes| && nodes[j].id in after {
      NodesAreMeasured(nodes, after, j);
    }
    hide Measured, SortDescending, ScoreOf;
  }

  predicate Disables(nodes: seq<Node>, id: string) {
    exists j | 0 <= j < |nodes| :: nodes[j].id == id && !nodes[j].enabled
  }

  /** The current node is another than the `i`th, which gains less than the threshold on it. */
  predicate Kept(rs: seq<Ranked>, i: nat, selected: Option<string>, threshold: real)
    requires i < |rs|
  {
    selected.Some? && selected.value != rs[i].id && rs[i].score < ScoreOf(rs, selected.value) + threshold
  }

  /** Exactly when smart selection names a disabled node: some enabled node has been measured, so that the
      selection is made at all, and the node it settles on is disabled. That is the current one if the best
      measured one gains too little on it, and otherwise the best measured one, enabled or not. */
  lemma DisabledIsSelectedExactly(nodes: seq<Node>, before: map<string, real>, after: map<string, real>,
                                  selected: Option<string>, threshold: real, i: nat)
    requires var rs := Measured(nodes, after); rs != [] ==> IsBest(rs, i)
    ensures var rs := Measured(nodes, after);
            var r := SmartSelect(nodes, before, after, selected, threshold);
            r.Some? && Disables(nodes, r.value) <==>
              && AnyEnabledMeasured(nodes, before) && rs != []
              && if Kept(rs, i, selected, threshold) then Disables(nodes, selected.value)
                 else Disables(nodes, rs[i].id)
  {
    var rs := Measured(nodes, after);
    if rs != [] {
      SwitchesOnlyForAGain(rs, selected, threshold, i);
      hide SelectBest;
    }
    hide Measured, ScoreOf, Disables, AnyEnabledMeasured;
  }

  /** Some scores of the measured nodes between 0 and 100, and some such threshold, make the selection name a
      disabled node. */
  ghost predicate CanMisselect(nodes: seq<Node>, before: map<string, real>, measured: set<string>,
                               selected: Option<string>) {
    exists after: map<string, real>, threshold: real | after.Keys == measured && InRange(after, threshold) ::
      Misselects(nodes, before, after, selected, threshold)
  }

  predicate InRange(scores: map<string, real>, threshold: real) {
    0.0 <= threshold <= 100.0 && forall id | id in scores :: 0.0 <= scores[id] <= 100.0
  }

  predicate Misselects(nodes: seq<Node>, before: map<string, real>, after: map<string, real>,
                       selected: Option<string>, threshold: real) {
    var r := SmartSelect(nodes, before, after, selected, threshold);
    r.Some? && Disables(nodes, r.value)
  }

  predicate AnyMeasured(nodes: seq<Node>, measured: set<string>) {
    exists j | 0 <= j < |nodes| :: nodes[j].id in measured
  }

  predicate AnyDisabledMeasured(nodes: seq<Node>, measured: set<string>) {
    exists j | 0 <= j < |nodes| :: nodes[j].id in measured && Disables(nodes, nodes[j].id)
  }

  /** Without knowing the scores: a disabled node can come out exactly when one has been measured, or the
      current one is disabled and any node has been measured. */
  lemma MisselectionIsPossible(nodes: seq<Node>, before: map<string, real>, measured: set<string>,
                               selected: Option<string>)
    requires AnyEnabledMeasured(nodes, before)
    ensures CanMisselect(nodes, before, measured, selected)
            <==> AnyDisabledMeasured(nodes, measured)
                 || (selected.Some? && Disables(nodes, selected.value) && AnyMeasured(nodes, measured))
  {
    hide AnyEnabledMeasured, SmartSelect, Disables;
    if CanMisselect(nodes, before, measured, selected) {
      var after: map<string, real>, threshold: real :| after.Keys == measured
        && Misselects(nodes, before, after, selected, threshold);
      OnlyMeasuredAreNamed(nodes, before, after, selected, threshold);
    }
    if AnyDisabledMeasured(nodes, measured) {
      var j :| 0 <= j < |nodes| && nodes[j].id in measured && Disables(nodes, nodes[j].id);
      var after := map id | id in measured :: if id == nodes[j].id then 1.0 else 0.0;
      TopScoreIsSelected(nodes, before, after, selected, j);
      assert after.Keys == measured && InRange(after, 0.0) && Misselects(nodes, before, after, selected, 0.0);
    } else if selected.Some? && Disables(nodes, selected.value) && AnyMeasured(nodes, measured) {
      var after := map id | id in measured :: 0.0;
      CurrentIsKept(nodes, before, after, selected);
      assert after.Keys == measured && InRange(after, 1.0) && Misselects(nodes, before, after, selected, 1.0);
    }
  }

  lemma OnlyMeasuredAreNamed(nodes: seq<Node>, before: map<string, real>, after: map<string, real>,
                             selected: Option<string>, threshold: real)
    requires Misselects(nodes, before, after, selected, threshold)
    ensures AnyDisabledMeasured(nodes, after.Keys)
            || (selected.Some? && Disables(nodes, selected.value) && AnyMeasured(nodes, after.Keys))
  {
    var rs := Measured(nodes, after);
    if rs != [] {
      var i := HeadIsBest(rs);
      DisabledIsSelectedExactly(nodes, before, after, selected, threshold, i);
      MeasuredAreNodes(nodes, after, i);
      hide SmartSelect, Measured, Disables, Kept;
    }
  }

  lemma TopScoreIsSelected(nodes: seq<Node>, before: map<string, real>, after: map<string, real>,
                           selected: Option<string>, j: nat)
    requires AnyEnabledMeasured(nodes, before) && j < |nodes| && Disables(nodes, nodes[j].id)
    requires nodes[j].id in after && forall id | id in after :: after[id] == if id == nodes[j].id then 1.0 else 0.0
    ensures Misselects(nodes, before, after, selected, 0.0)
  {
    var rs := Measured(nodes, after);
    NodesAreMeasured(nodes, after, j);
    var i := HeadIsBest(rs);
    MeasuredAreNodes(nodes, after, i);
    DisabledIsSelectedExactly(nodes, before, after, selected, 0.0, i);
    if selected.Some? {
      ScoresAreBounded(rs, selected.value, rs[i].score);
    }
    hide SmartSelect, Measured, Disables, AnyEnabledMeasured, ScoreOf;
  }

  lemma CurrentIsKept(nodes: seq<Node>, before: map<string, real>, after: map<string, real>, selected: Option<string>)
    requires AnyEnabledMeasured(nodes, before) && AnyMeasured(nodes, after.Keys)
    requires selected.Some? && Disables(nodes, selected.value)
    requires forall id | id in after :: after[id] == 0.0
    ensures Misselects(nodes, before, after, selected, 1.0)
  {
    var rs := Measured(nodes, after);
    var j :| 0 <= j < |nodes| && nodes[j].id in after;
    NodesAreMeasured(nodes, after, j);
    var i := HeadIsBest(rs);
    MeasuredAreNodes(nodes, after, i);
    DisabledIsSelectedExactly(nodes, before, after, selected, 1.0, i);
    assert forall k | 0 <= k < |rs| :: rs[k].score == 0.0 by {
      forall k | 0 <= k < |rs| ensures rs[k].score == 0.0 {
        MeasuredAreNodes(nodes, after, k);
      }
    }
    ScoreIsZero(rs, selected.value);
    hide SmartSelect, Measured, Disables, AnyEnabledMeasured, ScoreOf;
  }

  lemma {:induction false} ScoresAreBounded(rs: seq<Ranked>, id: string, top: real)
    requires top >= 0.0 && forall j | 0 <= j < |rs| :: rs[j].score <= top
    ensures ScoreOf(rs, id) <= top
  {
    if rs != [] {
      assert forall j | 0 <= j < |rs| - 1 :: rs[1..][j] == rs[j + 1];
      ScoresAreBounded(rs[1..], id, top);
    }
  }

  lemma {:induction false} MeasuredAreNodes(nodes: seq<Node>, scores: map<string, real>, i: nat)
    requires i < |Measured(nodes, scores)|
    ensures var r := Measured(nodes, scores)[i];
            r.id in scores && r.score == scores[r.id] && exists j | 0 <= j < |nodes| :: nodes[j].id == r.id
  {
    var head := if nodes[0].id in scores then [Ranked(nodes[0].id, scores[nodes[0].id])] else [];
    if i >= |head| {
      MeasuredAreNodes(nodes[1..], scores, i - |head|);
      var j :| 0 <= j < |nodes| - 1 && nodes[1..][j].id == Measured(nodes[1..], scores)[i - |head|].id;
      assert nodes[j + 1] == nodes[1..][j];
    } else {
      assert nodes[0].id == Measured(nodes, scores)[i].id;
    }
  }

  lemma {:induction false} NodesAreMeasured(nodes: seq<Node>, scores: map<string, real>, j: nat)
    requires j < |nodes| && nodes[j].id in scores
    ensures exists k | 0 <= k < |Measured(nodes, scores)| ::
              Measured(nodes, scores)[k] == Ranked(nodes[j].id, scores[nodes[j].id])
  {
    var rs := Measured(nodes, scores);
    if j == 0 {
      assert rs[0] == Ranked(nodes[0].id, scores[nodes[0].id]);
    } else {
      NodesAreMeasured(nodes[1..], scores, j - 1);
      var rest := Measured(nodes[1..], scores);
      var k :| 0 <= k < |rest| && rest[k] == Ranked(nodes[j].id, scores[nodes[j].id]);
      assert rs[|rs| - |rest| + k] == rest[k];
    }
  }

  /** A disabled node overtakes an enabled one: it takes no more than an old measurement of it. */
  lemma DisabledNodeIsSelected()
    ensures var nodes := [Node("a", true), Node("b", false)];
            var scores := map["a" := 50.0, "b" := 90.0];
            var r := SmartSelect(nodes, scores, scores, Some("a"), 10.0);
            r.Some? && Disables(nodes, r.value)
  {
    var nodes := [Node("a", true), Node("b", false)];
    var scores := map["a" := 50.0, "b" := 90.0];
    assert nodes[0].enabled && nodes[0].id in scores;
    assert nodes[1..] == [Node("b", false)] && nodes[1..][1..] == [];
    assert Measured(nodes[1..], scores) == [Ranked("b", 90.0)];
    assert Measured(nodes, scores) == [Ranked("a", 50.0), Ranked("b", 90.0)];
    assert nodes[1].id == "b" && !nodes[1].enabled;
    DisabledIsSelectedExactly(nodes, scores, scores, Some("a"), 10.0, 1);
  }
}
