/** One ticking phase of the health supervisor: when it asks for a recovery. */
module Monitor {
  import opened Prelude
  import opened Core

  /** What ends a wait of the phase: the cancellation, or a tick with the connection state and,
      if it is CONNECTED, the result of the health check. */
  datatype Wake = Cancelled | Ticked(connected: bool, health: Health)

  datatype Phase = Finished | NeedRecovery

  predicate GoesOn(w: Wake) {
    w.Ticked? && w.connected
  }

  predicate Finds(w: Wake, h: Health) {
    GoesOn(w) && w.health == h
  }

  /** The last check of the first `n` found the core dead, or the last three the uplink. */
  predicate Alarm(obs: seq<Wake>, n: nat)
    requires n <= |obs|
  {
    && n > 0
    && (Finds(obs[n - 1], LocalDead)
        || (n >= 3 && forall i | n - 3 <= i < n :: Finds(obs[i], UplinkDead)))
  }

  /** The phase is over after exactly `n` wakes, with this result. */
  ghost predicate EndsAt(obs: seq<Wake>, n: nat, phase: Phase) {
    && 0 < n <= |obs|
    && (forall i | 0 <= i < n - 1 :: GoesOn(obs[i]))
    && (forall m | 0 <= m < n :: !Alarm(obs, m))
    && match phase
       case Finished => !GoesOn(obs[n - 1])
       case NeedRecovery => GoesOn(obs[n - 1]) && Alarm(obs, n)
  }

  /** Runs the phase over the wakes that arrive. `strikes` counts uplink failures and is reset by
      every healthy check. */
  method TickPhase(obs: seq<Wake>) returns (phase: Option<Phase>, used: nat)
    ensures phase.Some? ==> EndsAt(obs, used, phase.value)
    ensures phase.None? ==>
              used == |obs| && (forall i | 0 <= i < |obs| :: GoesOn(obs[i]))
              && forall m | 0 <= m <= |obs| :: !Alarm(obs, m)
  {
    var strikes := 0;
    used := 0;
    while used < |obs|
      invariant 0 <= used <= |obs|
      invariant forall i | 0 <= i < used :: GoesOn(obs[i])
      invariant forall m | 0 <= m <= used :: !Alarm(obs, m)
      invariant strikes <= 2 && strikes <= used
      invariant forall i | used - strikes <= i < used :: Finds(obs[i], UplinkDead)
      invariant strikes < used ==> Finds(obs[used - strikes - 1], Healthy)
    {
      var w := obs[used];
      used := used + 1;
      if !GoesOn(w) { return Some(Finished), used; }
      match w.health {
        case Healthy =>
          strikes := 0;
        case LocalDead =>
          return Some(NeedRecovery), used;
        case UplinkDead =>
          strikes := strikes + 1;
          if strikes >= 3 { return Some(NeedRecovery), used; }
      }
    }
    return None, used;
  }

  /** One health check: the strikes after it, or the call for a recovery. */
  function Next(strikes: nat, h: Health): Option<nat> {
    match h
    case Healthy => Some(0)
    case LocalDead => None
    case UplinkDead => if strikes + 1 >= 3 then None else Some(strikes + 1)
  }

  function Count(strikes: nat, hs: seq<Health>): Option<nat>
    decreases |hs|
  {
    if hs == [] then Some(strikes)
    else match Next(strikes, hs[0])
      case None => None
      case Some(k) => Count(k, hs[1..])
  }

  function Ticks(hs: seq<Health>): (obs: seq<Wake>)
    ensures |obs| == |hs|
  {
    seq(|hs|, i requires 0 <= i < |hs| => Ticked(true, hs[i]))
  }

  lemma {:induction false} CountPush(strikes: nat, hs: seq<Health>, h: Health)
    ensures Count(strikes, hs + [h])
         == match Count(strikes, hs) case None => None case Some(k) => Next(k, h)
    decreases |hs|
  {
    hide Next;
    if hs == [] {
      assert (hs + [h])[1..] == [];
    } else {
      assert (hs + [h])[1..] == hs[1..] + [h];
      if Next(strikes, hs[0]).Some? {
        CountPush(Next(strikes, hs[0]).value, hs[1..], h);
      }
    }
  }

  ghost predicate NoAlarm(hs: seq<Health>) {
    forall m | 0 <= m <= |hs| :: !Alarm(Ticks(hs), m)
  }

  /** Counting strikes calls for a recovery exactly when there has been an alarm; the strikes are the uplink
      failures since the last healthy check. */
  lemma {:induction false} CountIsAlarm(hs: seq<Health>)
    ensures Count(0, hs).Some? <==> NoAlarm(hs)
    ensures Count(0, hs).Some? ==>
              var k := Count(0, hs).value;
              && k <= 2 && k <= |hs| && (forall i | |hs| - k <= i < |hs| :: hs[i] == UplinkDead)
              && (k < |hs| ==> hs[|hs| - k - 1] == Healthy)
    decreases |hs|
  {
    if hs != [] {
      var front, h := hs[..|hs| - 1], hs[|hs| - 1];
      CountIsAlarm(front);
      CountPush(0, front, h);
      assert front + [h] == hs;
      AlarmOfFront(front, h);
      LastAlarm(hs);
    }
  }

  lemma LastAlarm(hs: seq<Health>)
    requires hs != []
    ensures var n := |hs|;
            Alarm(Ticks(hs), n) <==>
              hs[n - 1] == LocalDead
              || (n >= 3 && hs[n - 1] == UplinkDead && hs[n - 2] == UplinkDead && hs[n - 3] == UplinkDead)
  {
    var n, obs := |hs|, Ticks(hs);
    assert n >= 3 ==> obs[n - 1].health == hs[n - 1] && obs[n - 2].health == hs[n - 2] && obs[n - 3].health == hs[n - 3];
    if n >= 3 && hs[n - 1] == hs[n - 2] == hs[n - 3] == UplinkDead {
      assert forall i | n - 3 <= i < n :: Finds(obs[i], UplinkDead);
    }
  }

  lemma AlarmOfFront(front: seq<Health>, h: Health)
    ensures forall m | 0 <= m <= |front| :: Alarm(Ticks(front + [h]), m) <==> Alarm(Ticks(front), m)
  {
    var a, b := Ticks(front + [h]), Ticks(front);
    assert forall i | 0 <= i < |front| :: a[i] == b[i];
    forall m | 0 <= m <= |front| ensures Alarm(a, m) <==> Alarm(b, m) {
      if m >= 3 {
        assert a[m - 1] == b[m - 1] && a[m - 2] == b[m - 2] && a[m - 3] == b[m - 3];
      }
    }
  }

  /** The end of a phase is unique, so `TickPhase` asks for a recovery if and only if an alarm
      comes before the end of the connection, and then at the first alarm. */
  lemma PhaseEndIsUnique(obs: seq<Wake>, n: nat, p: Phase, m: nat, q: Phase)
    requires EndsAt(obs, n, p) && EndsAt(obs, m, q)
    ensures n == m && p == q
  {
  }

  /** With no dead core, and a healthy check among any three in a row, the phase never asks for a
      recovery: one or two uplink failures are forgiven. */
  lemma StrikesAreForgiven(obs: seq<Wake>, n: nat)
    requires forall i | 0 <= i < |obs| :: !Finds(obs[i], LocalDead)
    requires forall i | 2 <= i < |obs| ::
               !Finds(obs[i - 2], UplinkDead) || !Finds(obs[i - 1], UplinkDead) || !Finds(obs[i], UplinkDead)
    ensures !EndsAt(obs, n, NeedRecovery)
  {
    if 3 <= n <= |obs| {
      var i := n - 1;
      assert !Finds(obs[i - 2], UplinkDead) || !Finds(obs[i - 1], UplinkDead) || !Finds(obs[i], UplinkDead);
      assert i - 2 == n - 3 && i - 1 == n - 2;
    }
  }
}
