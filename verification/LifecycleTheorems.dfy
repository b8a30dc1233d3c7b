/** What the invariant means for callers of the connection manager. */
module LifecycleTheorems {
  import opened Prelude
  import opened ConnState
  import opened Lifecycle
  import opened LifecycleInvariant
  import R = Route
  import RS = RouteSafety
  import K = Core
  import M = Monitor

  /** A state that some interleaving reaches from a boot. */
  ghost predicate Reachable(s: Sys) {
    exists cfg, l, steps :: SoundLeftover(l) && s == Exec(Boot(cfg, l), steps)
  }

  lemma ReachableIsSound(s: Sys)
    requires Reachable(s)
    ensures Inv(s)
  {
    hide Inv, Exec, Boot, SoundLeftover;
    var cfg, l, steps :| SoundLeftover(l) && s == Exec(Boot(cfg, l), steps);
    BootIsSound(cfg, l);
    RunIsSound(Boot(cfg, l), steps);
  }

  // ---------- States ----------

  /** In every interleaving each state write, the unchecked ones included, is an edge of the
      table, and no checked transition after the entry checks is ever refused. */
  lemma EveryWriteIsAnEdge(s: Sys)
    requires Reachable(s)
    ensures s.hist.legal && !s.hist.refused
  {
    ReachableIsSound(s);
  }

  /** With the guard free the connection rests in one of four states, unless a disk write of
      set_mode has failed. */
  lemma GuardFreeStates(s: Sys)
    requires Reachable(s) && s.holder.Free?
    ensures s.conn == Stopped || s.conn == Connected || s.conn == Reconnecting || s.conn == Error
            || (s.conn == Starting && s.hist.modeFault)
  {
    ReachableIsSound(s);
  }

  predicate Stranded(s: Sys) {
    s.conn == Starting && s.tasks == map[] && (s.holder.Free? || s.holder.Reap?)
  }

  /** A connect that finds its node ends in STARTING exactly when the disk write fails ... */
  lemma FailedModeWriteStrands(s: Sys, req: Request, io: Io)
    requires Reachable(s) && s.holder.Free? && (s.conn == Stopped || s.conn == Error)
    ensures Stranded(Do(s, BeginConnect(req, io))) <==> io.lookup == Enabled && !io.modeSaved
  {
    ReachableIsSound(s);
    hide R.RestoreOutcome, R.EnsureOutcome, Parsed;
  }

  /** What a live switch still holds before its core is stopped. */
  lemma SwitchHolds(s: Sys)
    requires Reachable(s) && s.holder.StopCore?
    ensures s.conn == State.Stopping && s.tasks == map[] && s.proxy.saved.Some? && s.holder.op.Connect?
  {
    ReachableIsSound(s);
  }

  /** ... and so does a live switch, whose core is gone by then while the snapshot is still held: the proxy points
      at a dead port ... */
  lemma FailedModeWriteStrandsSwitch(s: Sys, io: Io)
    requires Reachable(s) && s.holder.StopCore?
    ensures var r := Do(s, HolderStep(io));
            && (Stranded(r) <==> io.lookup == Enabled && !io.modeSaved)
            && (Stranded(r) ==> r.core.child.None? && r.proxy.saved.Some? && r.proxy.saved == s.proxy.saved
                                && (!s.holder.op.boot ==> r.proxy == s.proxy))
  {
    SwitchHolds(s);
    RS.BootWritesKeepSnapshot(s.proxy, s.cfg.hp, s.cfg.bypass, io.budget);
    hide R.RestoreOutcome, R.EnsureOutcome, R.Run, Parsed;
  }

  /** ... and nothing but a restart of the service ever leaves that state again, nor, once the startup task is
      done, touches the proxy: no disconnect can clear it. */
  lemma {:induction false} StrandedForever(s: Sys, steps: seq<Step>)
    requires Stranded(s)
    ensures Stranded(Exec(s, steps))
    ensures s.holder.Free? && !s.startupPending ==> Exec(s, steps).proxy == s.proxy
    decreases steps
  {
    hide Stranded, Do;
    if steps != [] {
      StrandedStep(s, steps[0]);
      StrandedForever(Do(s, steps[0]), steps[1..]);
    }
  }

  lemma StrandedStep(s: Sys, step: Step)
    requires Stranded(s)
    ensures var r := Do(s, step);
            Stranded(r) && (s.holder.Free? && !s.startupPending ==>
                              r.holder.Free? && !r.startupPending && r.proxy == s.proxy)
  {
    hide R.RestoreOutcome, R.EnsureOutcome, R.Run, Parsed, Dial, TakeMonitor, TaskMoves;
  }

  /** A connect request changes nothing at all exactly during a recovery, while stranded, when its target is up
      already, and in ERROR when its node is unusable once more. */
  lemma ConnectIsRefusedExactly(s: Sys, req: Request, io: Io)
    requires Reachable(s) && s.holder.Free?
    ensures Do(s, BeginConnect(req, io)) == s <==>
              || s.conn == Reconnecting || s.conn == Starting
              || (s.conn == Connected && s.active == Some(req.node) && s.ctxMode.Some? && req.mode == Named(s.ctxMode.value))
              || (s.conn == Error && io.lookup != Enabled
                  && (io.persisted ==> s.record == Record(Error, "", Parsed(req.mode))))
  {
    ReachableIsSound(s);
    hide R.RestoreOutcome, R.EnsureOutcome, Parsed;
  }

  // ---------- Supervisors ----------

  /** Never two supervisors; none while a connection is being set up; exactly one behind every
      resting CONNECTED or RECONNECTING. */
  lemma SupervisorCount(s: Sys)
    requires Reachable(s)
    ensures |s.tasks| <= 1
    ensures s.conn == Starting || s.conn == Connecting || s.conn == Stopped ==> s.tasks == map[]
    ensures s.holder.Free? ==> (|s.tasks| == 1 <==> s.conn == Connected || s.conn == Reconnecting)
  {
    ReachableIsSound(s);
    if Alive(s) {
      assert s.tasks.Keys == {Registered(s).value};
      assert |s.tasks.Keys| == 1;
    } else {
      assert forall id | id in s.tasks :: false;
      assert s.tasks.Keys == {};
    }
    assert |s.tasks| == |s.tasks.Keys|;
    if s.conn == Starting || s.conn == Connecting || s.conn == Stopped {
      assert NoTask(s);
    }
  }

  /** The guard holder and a supervisor are never inside the core adapter together, so its child
      lock is never contended. */
  lemma CoreIsNotShared(s: Sys, id: nat)
    requires Reachable(s) && id in s.tasks
    ensures s.holder.Free? || s.holder.Reap? || s.holder.Register? || s.holder.WaitMonitor?
  {
    ReachableIsSound(s);
    AliveMeans(s, id);
  }

  function Rank(pc: Pc): nat {
    match pc
    case Selecting(_) => 9
    case RecStop(_, _) => 8
    case RecStart(_, _) => 7
    case RecWait(_, _) => 6
    case RecCheck(_, _) => 5
    case GiveUpProxy(_) => 4
    case GiveUpCore(_) => 3
    case Checking(_) => 2
    case Tick(_) => 1
  }

  lemma TickRank(s: Sys, id: nat, io: Io)
    requires id in s.tasks && (s.tasks[id].pc.Tick? || s.tasks[id].pc.Checking?) && s.conn != Connected
    ensures var r := TickMoves(s, id, io);
            r.holder == s.holder && (id in r.tasks ==> Rank(r.tasks[id].pc) < Rank(s.tasks[id].pc))
  {
  }

  lemma CoreRank(s: Sys, id: nat, io: Io)
    requires id in s.tasks
    requires var pc := s.tasks[id].pc;
             pc.RecStop? || pc.RecStart? || (pc.RecWait? && s.core.spawning.Some?)
    ensures var r := CoreMoves(s, id, io);
            r.holder == s.holder && id in r.tasks && Rank(r.tasks[id].pc) < Rank(s.tasks[id].pc)
  {
  }

  /** Inside a recovery each step leads to a later stage or out of it, back to ticking only if
      the connection is up again. */
  lemma RecoveryRank(s: Sys, id: nat, io: Io)
    requires id in s.tasks && Recovering(s.tasks[id].pc)
    requires s.tasks[id].pc.RecWait? ==> s.core.spawning.Some?
    ensures var r := TaskMoves(s, id, io);
            && r.holder == s.holder
            && (id in r.tasks && Recovering(r.tasks[id].pc) ==> Rank(r.tasks[id].pc) < Rank(s.tasks[id].pc))
            && (id in r.tasks && !Recovering(r.tasks[id].pc) ==> r.conn == Connected)
  {
    hide TickMoves, CoreMoves, R.ClearOutcome, R.ClearSucceeds, K.Stop, K.Check, CtxMode;
    var pc := s.tasks[id].pc;
    if pc.RecStop? || pc.RecStart? || pc.RecWait? {
      CoreRank(s, id, io);
      CoreStaysIn(s, id, io);
    }
  }

  lemma CoreStaysIn(s: Sys, id: nat, io: Io)
    requires id in s.tasks
    requires var pc := s.tasks[id].pc; pc.RecStop? || pc.RecStart? || pc.RecWait?
    ensures var r := CoreMoves(s, id, io); id in r.tasks && Recovering(r.tasks[id].pc)
  {
  }

  /** While the guard holder waits for a supervisor, every step of that supervisor brings it
      nearer to its end: it can neither start a recovery nor return to CONNECTED. */
  lemma AwaitedSupervisorMakesProgress(s: Sys, id: nat, io: Io)
    requires Inv(s) && s.holder.WaitMonitor? && id in s.tasks
    ensures var r := Do(s, TaskStep(id, io));
            && r.holder == s.holder
            && (id in r.tasks ==> Rank(r.tasks[id].pc) < Rank(s.tasks[id].pc))
  {
    hide Inv, TaskMoves, TickMoves;
    AliveMeans(s, id);
    var pc := s.tasks[id].pc;
    if Recovering(pc) {
      RecoveryRank(s, id, io);
      StepIsSound(s, TaskStep(id, io));
      var r := Do(s, TaskStep(id, io));
      if id in r.tasks {
        AliveMeans(r, id);
      }
    } else {
      assert TaskMoves(s, id, io) == TickMoves(s, id, io) by { Ticking(s, id, io); }
      TickRank(s, id, io);
    }
  }

  lemma Ticking(s: Sys, id: nat, io: Io)
    requires id in s.tasks && (s.tasks[id].pc.Tick? || s.tasks[id].pc.Checking?)
    ensures TaskMoves(s, id, io) == TickMoves(s, id, io)
  {
  }

  /** So the wait in stop_monitor always ends: at most nine supervisor steps later the guard
      holder can go on, whatever the environment answers. */
  lemma {:induction false} StopMonitorIsNotBlocked(s: Sys, id: nat, ios: seq<Io>)
    requires Inv(s) && s.holder.WaitMonitor? && s.holder.awaited == Some(id)
    requires id in s.tasks ==> |ios| >= Rank(s.tasks[id].pc)
    ensures var steps := seq(|ios|, i requires 0 <= i < |ios| => TaskStep(id, ios[i]));
            HolderEnabled(Exec(s, steps))
    decreases ios
  {
    hide Inv, Do, Rank;
    var steps := seq(|ios|, i requires 0 <= i < |ios| => TaskStep(id, ios[i]));
    if id in s.tasks {
      assert |ios| > 0 by { RankIsPositive(s.tasks[id].pc); }
      var r := Do(s, steps[0]);
      StepIsSound(s, steps[0]);
      AwaitedSupervisorMakesProgress(s, id, ios[0]);
      StopMonitorIsNotBlocked(r, id, ios[1..]);
      assert steps[1..] == seq(|ios[1..]|, i requires 0 <= i < |ios[1..]| => TaskStep(id, ios[1..][i]));
    } else {
      GoneTaskSteps(s, id, steps);
    }
  }

  lemma RankIsPositive(pc: Pc)
    ensures 0 < Rank(pc) <= 9
  {
  }

  lemma {:induction false} GoneTaskSteps(s: Sys, id: nat, steps: seq<Step>)
    requires id !in s.tasks && forall i | 0 <= i < |steps| :: steps[i].TaskStep? && steps[i].id == id
    ensures Exec(s, steps) == s
    decreases steps
  {
    if steps != [] {
      assert Do(s, steps[0]) == s;
      GoneTaskSteps(s, id, steps[1..]);
    }
  }

  // ---------- The tick phase ----------

  function Healths(c: K.Core, ios: seq<Io>): (hs: seq<K.Health>)
    ensures |hs| == |ios|
  {
    seq(|ios|, i requires 0 <= i < |ios| => K.Check(c, ios[i].localOk, ios[i].tunnelOk))
  }

  /** A tick and the check it asks for, for each of these answers. */
  function TickSteps(id: nat, ios: seq<Io>): seq<Step> {
    if ios == [] then [] else [TaskStep(id, ios[0]), TaskStep(id, ios[0])] + TickSteps(id, ios[1..])
  }

  lemma TwoSteps(s: Sys, a: Step, b: Step, rest: seq<Step>)
    ensures Exec(s, [a, b] + rest) == Exec(Do(Do(s, a), b), rest)
  {
    hide Do;
    var all := [a, b] + rest;
    assert all[1..] == [b] + rest && all[1..][1..] == rest;
    assert Exec(s, all) == Exec(Do(s, a), all[1..]);
  }

  lemma OneCheck(s: Sys, id: nat, io: Io)
    requires id in s.tasks && s.tasks[id].pc.Tick? && s.conn == Connected && (io.tick || !s.tasks[id].cancelled)
    ensures var k := s.tasks[id].pc.strikes;
            var r := Do(Do(s, TaskStep(id, io)), TaskStep(id, io));
            r == match M.Next(k, K.Check(s.core, io.localOk, io.tunnelOk))
                 case Some(j) => Goto(s, id, Tick(j))
                 case None => BeginRecover(Goto(s, id, Checking(k)), id, io)
  {
    hide BeginRecover, M.Next, K.Check;
    var k := s.tasks[id].pc.strikes;
    var mid := Goto(s, id, Checking(k));
    assert Do(s, TaskStep(id, io)) == mid;
    assert forall pc :: Goto(mid, id, pc) == Goto(s, id, pc) by {
      forall pc ensures Goto(mid, id, pc) == Goto(s, id, pc) {
        assert mid.tasks[id := mid.tasks[id].(pc := pc)] == s.tasks[id := s.tasks[id].(pc := pc)];
      }
    }
  }

  /** The supervisor counts as the tick phase does: left to itself in CONNECTED, it is still ticking after these
      health checks if none of them raised the alarm ... */
  lemma {:induction false} QuietChecksGoOn(s: Sys, id: nat, ios: seq<Io>)
    requires id in s.tasks && s.tasks[id].pc.Tick? && s.conn == Connected
    requires forall i | 0 <= i < |ios| :: ios[i].tick || !s.tasks[id].cancelled
    requires M.Count(s.tasks[id].pc.strikes, Healths(s.core, ios)).Some?
    ensures Exec(s, TickSteps(id, ios)) ==
            Goto(s, id, Tick(M.Count(s.tasks[id].pc.strikes, Healths(s.core, ios)).value))
    decreases |ios|
  {
    hide Do, M.Next;
    if ios == [] {
      assert s.tasks[id := s.tasks[id]] == s.tasks;
    } else {
      OneCheck(s, id, ios[0]);
      TwoSteps(s, TaskStep(id, ios[0]), TaskStep(id, ios[0]), TickSteps(id, ios[1..]));
      assert Healths(s.core, ios)[1..] == Healths(s.core, ios[1..]);
      var k := M.Next(s.tasks[id].pc.strikes, Healths(s.core, ios)[0]).value;
      var r := Goto(s, id, Tick(k));
      QuietChecksGoOn(r, id, ios[1..]);
      assert forall pc :: r.tasks[id := r.tasks[id].(pc := pc)] == s.tasks[id := s.tasks[id].(pc := pc)];
    }
  }
  /** ... and begins a recovery at the check at which the count is up. */
  lemma {:induction false} AlarmRecovers(s: Sys, id: nat, ios: seq<Io>)
    requires id in s.tasks && s.tasks[id].pc.Tick? && s.conn == Connected && ios != []
    requires forall i | 0 <= i < |ios| :: ios[i].tick || !s.tasks[id].cancelled
    requires var k, hs := s.tasks[id].pc.strikes, Healths(s.core, ios);
             M.Count(k, hs).None? && M.Count(k, hs[..|hs| - 1]).Some?
    ensures var k, hs := s.tasks[id].pc.strikes, Healths(s.core, ios);
            Exec(s, TickSteps(id, ios)) ==
            BeginRecover(Goto(s, id, Checking(M.Count(k, hs[..|hs| - 1]).value)), id, ios[|ios| - 1])
    decreases |ios|
  {
    hide Do, M.Next, BeginRecover;
    var hs := Healths(s.core, ios);
    OneCheck(s, id, ios[0]);
    TwoSteps(s, TaskStep(id, ios[0]), TaskStep(id, ios[0]), TickSteps(id, ios[1..]));
    if |ios| == 1 {
      assert hs[1..] == [] && ios[1..] == [] && hs[..0] == [];
    } else {
      assert hs[1..] == Healths(s.core, ios[1..]);
      assert hs[..|hs| - 1][0] == hs[0] && hs[..|hs| - 1][1..] == hs[1..][..|hs| - 2];
      var r := Goto(s, id, Tick(M.Next(s.tasks[id].pc.strikes, hs[0]).value));
      AlarmRecovers(r, id, ios[1..]);
      assert forall pc :: r.tasks[id := r.tasks[id].(pc := pc)] == s.tasks[id := s.tasks[id].(pc := pc)];
    }
  }

  /** So a supervisor that starts to tick in CONNECTED asks for a recovery as the tick phase does, exactly at the
      first alarm: a dead core, or the third dead uplink since the last healthy check. */
  lemma SupervisorFollowsTickPhase(s: Sys, id: nat, ios: seq<Io>)
    requires id in s.tasks && s.tasks[id].pc == Tick(0) && s.conn == Connected && ios != []
    requires forall i | 0 <= i < |ios| :: ios[i].tick || !s.tasks[id].cancelled
    requires M.NoAlarm(Healths(s.core, ios)[..|ios| - 1])
    ensures var hs := Healths(s.core, ios);
            var r := Exec(s, TickSteps(id, ios));
            if M.NoAlarm(hs) then r.conn == Connected && id in r.tasks && r.tasks[id].pc.Tick?
            else exists k :: r == BeginRecover(Goto(s, id, Checking(k)), id, ios[|ios| - 1])
  {
    hide BeginRecover, Exec;
    var hs := Healths(s.core, ios);
    M.CountIsAlarm(hs);
    M.CountIsAlarm(hs[..|hs| - 1]);
    if M.NoAlarm(hs) {
      QuietChecksGoOn(s, id, ios);
    } else {
      AlarmRecovers(s, id, ios);
    }
  }

  // ---------- Resources ----------

  /** What is held when no guarded operation is in progress. */
  lemma RestingResources(s: Sys)
    requires Reachable(s) && s.holder.Free?
    ensures s.conn == Connected ==>
              && s.core.child.Some? && s.core.status == K.Running && s.session.Some?
              && s.active.Some? && s.proxy.saved.Some? && s.restarts == 0
    ensures s.conn == Stopped ==>
              s.core.child.None? && s.session.None? && s.active.None? && s.proxy.saved.None?
    ensures s.conn == Error ==>
              && s.core.child.None? && s.session.None? && s.active.None?
              && (s.proxy.saved.Some? ==> s.hist.switchAborted || s.hist.regFault)
  {
    ReachableIsSound(s);
  }

  /** Every core process of ours is held by the adapter or was left by an earlier instance; with
      the connection down none of this instance runs. */
  lemma NoOrphanCore(s: Sys)
    requires Reachable(s)
    ensures s.core.live <= K.Held(s.core) + s.stale
    ensures s.holder.Free? && (s.conn == Stopped || s.conn == Error) ==> s.core.live <= s.stale
  {
    ReachableIsSound(s);
  }

  /** The segment of a live switch that looks for its node: the snapshot is still held after it, and it ends in ERROR
      exactly when the node is missing or disabled; nobody clears the proxy then. What the later segments can do is
      in `LifecycleErrors.WholeSwitch`. */
  lemma AbortedSwitchKeepsSnapshot(s: Sys, io: Io)
    requires Reachable(s) && s.holder.StopCore?
    ensures var r := Do(s, HolderStep(io));
            && r.proxy.saved.Some? && r.proxy.saved == s.proxy.saved
            && (r.conn == Error <==> io.lookup != Enabled)
            && (r.conn == Error ==> r.holder.Free? && r.hist.switchAborted && (!s.holder.op.boot ==> r.proxy == s.proxy))
  {
    SwitchHolds(s);
    RS.BootWritesKeepSnapshot(s.proxy, s.cfg.hp, s.cfg.bypass, io.budget);
    hide R.RestoreOutcome, R.EnsureOutcome, R.Run, Parsed;
  }

  // ---------- Recovery ----------

  /** The restart counter never exceeds one, so a recovery makes a single attempt: a smart switch
      is reached only with a restart budget of zero, and a failed restart gives up at once. */
  lemma RecoveryIsASingleAttempt(s: Sys, id: nat)
    requires Reachable(s) && id in s.tasks
    ensures s.restarts == if Recovering(s.tasks[id].pc) then 1 else 0
    ensures var pc := s.tasks[id].pc;
            && (pc.Selecting? ==> s.cfg.restartMax == 0)
            && (s.cfg.restartMax > 0 && !pc.GiveUpProxy? && !pc.GiveUpCore? && Recovering(pc)
                ==> pc.target == pc.prev)
  {
    ReachableIsSound(s);
    AliveMeans(s, id);
  }

  /** No step inside a recovery goes back to an earlier stage of it. */
  lemma RecoveryNeverRetries(s: Sys, id: nat, io: Io)
    requires Reachable(s) && id in s.tasks && Recovering(s.tasks[id].pc)
    ensures var r := Do(s, TaskStep(id, io));
            id in r.tasks && Recovering(r.tasks[id].pc) ==> Rank(r.tasks[id].pc) < Rank(s.tasks[id].pc)
  {
    hide Inv, TaskMoves;
    ReachableIsSound(s);
    AliveMeans(s, id);
    RecoveryRank(s, id, io);
  }

  /** A recovery that succeeds while a disconnect waits changes no connection state; only the
      record on disk claims CONNECTED until the disconnect rewrites it. */
  lemma RecoveryDuringDisconnect(s: Sys, id: nat, io: Io)
    requires Reachable(s) && s.holder.WaitMonitor? && id in s.tasks && s.tasks[id].pc.RecCheck?
    requires K.Check(s.core, io.localOk, io.tunnelOk) == K.Healthy
    ensures var r := Do(s, TaskStep(id, io));
            r.conn == State.Stopping == s.conn && id !in r.tasks
            && (io.persisted ==> r.record.lastState == Connected)
  {
    ReachableIsSound(s);
    AliveMeans(s, id);
    hide Inv;
  }
}
