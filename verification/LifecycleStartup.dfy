/** The startup task against a connection that came up before it, or while it waited: what supervisors do before and
    after its one segment makes no difference to whether the proxy is taken away. */
module LifecycleStartup {
  import opened Prelude
  import opened ConnState
  import opened Lifecycle
  import opened LifecycleInvariant
  import opened LifecycleScenarios
  import R = Route
  import RS = RouteSafety
  import K = Core
  import LR = LifecycleRegistry
  import LT = LifecycleTheorems

  /** The user's traffic is no longer led to a connection that is up. */
  predicate Undercut(r: Sys) {
    r.conn == Connected && !R.Dangling(r.proxy.reg, r.cfg.hp)
  }

  /** Steps that need no guard. */
  predicate Unguarded(steps: seq<Step>) {
    forall i | 0 <= i < |steps| :: steps[i].TaskStep? || steps[i].ProcessDies?
  }

  lemma UnguardedStep(s: Sys, step: Step)
    requires step.TaskStep? || step.ProcessDies?
    ensures var r := Do(s, step);
            && r.holder == s.holder && r.cfg == s.cfg && r.startupPending == s.startupPending
            && (r.proxy == s.proxy || r.proxy.saved.None?)
            && (step.ProcessDies? ==> step.pid !in r.core.live && r.core.live + {step.pid} == s.core.live + {step.pid})
  {
    hide TaskMoves, R.ClearOutcome, R.ClearSucceeds;
    if step.TaskStep? && step.id in s.tasks {
      if s.tasks[step.id].pc.GiveUpProxy? {
        LR.GiveUpProxyStep(s, step.id, step.io);
        RS.ClearDropsSnapshot(s.proxy, step.io.budget);
      } else {
        LR.TaskIsQuiet(s, step.id, step.io);
      }
    }
  }

  /** Supervisors leave the proxy alone or give the snapshot up. */
  lemma {:induction false} UnguardedRun(s: Sys, steps: seq<Step>)
    requires Unguarded(steps)
    ensures var r := Exec(s, steps);
            && r.holder == s.holder && r.cfg == s.cfg && r.startupPending == s.startupPending
            && (r.proxy == s.proxy || r.proxy.saved.None?)
    decreases steps
  {
    hide Do;
    if steps != [] {
      UnguardedStep(s, steps[0]);
      UnguardedRun(Do(s, steps[0]), steps[1..]);
    }
  }

  lemma ReachableFurther(s: Sys, steps: seq<Step>)
    requires LT.Reachable(s)
    ensures LT.Reachable(Exec(s, steps))
  {
    hide Exec, Boot, SoundLeftover;
    var cfg, l, run :| SoundLeftover(l) && s == Exec(Boot(cfg, l), run);
    ExecAppend(Boot(cfg, l), run, steps);
  }

  lemma OneStep(s: Sys, step: Step)
    ensures Exec(s, [step]) == Do(s, step)
  {
    hide Do;
    assert [step][1..] == [];
    assert Exec(s, [step]) == Exec(Do(s, step), []);
  }

  lemma SwitchWaits(s: Sys, io: Io)
    requires s.holder.Reap? && s.conn == Connected && LR.GoesAhead(s, io)
    ensures var r := Do(s, HolderStep(io)); r.holder.WaitMonitor? && r.holder.op.Connect?
  {
    hide R.Run, R.RestoreOutcome;
  }

  /** A resting connection holds its snapshot; one that is being left is not CONNECTED. */
  lemma ConnectedHolds(s: Sys)
    requires Inv(s) && s.conn == Connected
    ensures s.holder.Free? ==> s.proxy.saved.Some?
    ensures s.holder.WaitMonitor? ==> s.holder.op.Disconnect?
  {
  }

  /** The registry will be restored although a connection is up or coming back. */
  predicate Restores(s: Sys, io: Io) {
    s.record.node != "" && (s.conn == Connected && LR.Reconnects(s, io) ==> LR.SameTarget(s))
  }

  lemma RestoresUnlessAhead(s: Sys, io: Io)
    requires s.conn == Connected || s.conn == Reconnecting
    ensures Restores(s, io) <==> s.record.node != "" && !LR.GoesAhead(s, io)
  {
  }

  /** The startup task got the guard before or after a connection came up and waits while stale cores are killed;
      supervisors go on meanwhile (`before`) and afterwards (`after`). Whatever they do, a connection that is up in
      the end has been undercut exactly if, at the moment the waiting was over, the record on disk named a
      node, no switch to another target followed (while RECONNECTING none ever does), and the registry writes got
      far enough. Then STOPPED is recorded for it. */
  lemma LateStartupUndoesProxy(s: Sys, before: seq<Step>, io: Io, after: seq<Step>)
    requires LT.Reachable(s) && s.holder.Free? && s.startupPending && Unguarded(before) && Unguarded(after)
    requires var q := Exec(Do(s, BeginStartup), before);
             && (q.conn == Connected || q.conn == Reconnecting)
             && RS.Clean(q.proxy, q.cfg.hp) && R.Dangling(q.proxy.reg, q.cfg.hp)
    ensures var q := Exec(Do(s, BeginStartup), before);
            var r := Do(q, HolderStep(io));
            var end := Exec(r, after);
            var restored := Restores(q, io) && !RS.LeavesDeadProxy(q.proxy, q.cfg.hp, io.budget);
            && (Undercut(end) <==> end.conn == Connected && restored)
            && (Restores(q, io) ==> r.conn == q.conn && r.holder.Free? && LR.Remembered(q, r, io))
  {
    hide Exec, R.Dangling, RS.LeavesDeadProxy, RS.Clean, Inv;
    var s1 := Do(s, BeginStartup);
    var q := Exec(s1, before);
    assert s1.holder.Reap?;
    UnguardedRun(s1, before);
    hide Do;
    OneStep(s, BeginStartup);
    ReachableFurther(s, [BeginStartup]);
    ReachableFurther(s1, before);
    OneStep(q, HolderStep(io));
    ReachableFurther(q, [HolderStep(io)]);
    var r := Do(q, HolderStep(io));
    ReachableFurther(r, after);
    UnguardedRun(r, after);
    AfterTheWait(q, io, r, Exec(r, after));
  }

  lemma AfterTheWait(q: Sys, io: Io, r: Sys, end: Sys)
    requires q.holder.Reap? && (q.conn == Connected || q.conn == Reconnecting) && r == Do(q, HolderStep(io))
    requires RS.Clean(q.proxy, q.cfg.hp) && R.Dangling(q.proxy.reg, q.cfg.hp)
    requires LT.Reachable(end) && end.holder == r.holder && end.cfg == r.cfg
             && (end.proxy == r.proxy || end.proxy.saved.None?)
    ensures Undercut(end) <==> end.conn == Connected && Restores(q, io) && !RS.LeavesDeadProxy(q.proxy, q.cfg.hp, io.budget)
    ensures Restores(q, io) ==> r.conn == q.conn && r.holder.Free? && LR.Remembered(q, r, io)
  {
    hide Do, R.Dangling, RS.LeavesDeadProxy, RS.Clean, Inv, LR.GoesAhead, LR.Reconnects, Restores, LR.Remembered;
    hide R.Run, R.RestoreOutcome;
    LR.StartupClearsDeadProxy(q, io);
    RestoresUnlessAhead(q, io);
    LT.ReachableIsSound(end);
    if end.conn == Connected {
      ConnectedHolds(end);
    }
    if LR.GoesAhead(q, io) {
      LR.StartupGoesAhead(q, io);
      assert q.conn == Connected by { AheadFromConnected(q, io); }
      SwitchWaits(q, io);
    } else if LR.Reconnects(q, io) {
      LR.StartupIsRefused(q, io);
    } else {
      LR.StartupOnlyRestores(q, io);
    }
  }

  lemma AheadFromConnected(s: Sys, io: Io)
    requires LR.GoesAhead(s, io) && (s.conn == Connected || s.conn == Reconnecting)
    ensures s.conn == Connected
  {
  }

  // ---------- Stale cores ----------

  lemma DialKeepsProcesses(s: Sys, op: Op, io: Io)
    requires op.Connect?
    ensures Dial(s, op, false, io).core == s.core && Dial(s, op, false, io).stale == s.stale
  {
    hide R.RestoreOutcome, R.EnsureOutcome, Parsed;
  }

  lemma EndKeepsProcesses(s: Sys, op: Op, io: Io)
    ensures End(s, op, false, io).core == s.core && End(s, op, false, io).stale == s.stale
  {
    hide R.RestoreOutcome, Parsed;
  }

  lemma EnterKeepsProcesses(s: Sys, op: Op, io: Io)
    requires op.Connect?
    ensures Enter(s, op, io).core == s.core && Enter(s, op, io).stale == s.stale
  {
    DialKeepsProcesses(Transition(s, Starting), op, io);
    EndKeepsProcesses(s, op, io);
    hide End, Dial;
  }

  /** What a crash leaves running is what the next instance finds running; its startup kills all of it, a live core of
      its own included, unless the reaping fails. */
  lemma StartupReaps(cfg: Config, crashed: Sys, s: Sys, io: Io)
    requires s.holder.Reap?
    ensures Boot(cfg, Crash(crashed)).core.live == crashed.core.live == Boot(cfg, Crash(crashed)).stale
    ensures var r := Do(s, HolderStep(io));
            r.core.live == (if io.reaped then {} else s.core.live) && r.stale == if io.reaped then {} else s.stale
  {
    hide R.RestoreOutcome, R.Run, Enter;
    if LR.Reconnects(s, io) {
      LR.StartupHandsOver(s, io);
      EnterKeepsProcesses(LR.Handed(s, io), Connect(Request(s.record.node, Named(s.record.mode)), true), io);
    }
  }

  // ---------- Such runs exist ----------

  /** From every first start, since nothing orders the startup task before the first request: then the proxy is
      undone whatever the restore setting and the node store say. */
  lemma LateStartupIsReachable(cfg: Config, reg: R.Registry, req: Request, io: Io)
    requires R.Plain(cfg.hp) && req.node != "" && io.budget >= 4
    ensures var up := Exec(FirstStart(cfg, reg), UpSteps(req, true));
            && LT.Reachable(up) && up.holder.Free? && up.startupPending && up.conn == Connected
            && Undercut(Do(Do(up, BeginStartup), HolderStep(io)))
  {
    hide Exec, RS.Clean, R.Dangling, Parsed;
    ConnectionIsUp(cfg, reg, Record(Stopped, "", Smart), req, true);
    var up := Exec(FirstStart(cfg, reg), UpSteps(req, true));
    var q := Do(up, BeginStartup);
    assert q == up.(holder := Reap, startupPending := false);
    hide Do;
    NoSteps(q);
    NoSteps(Do(q, HolderStep(io)));
    LateStartupUndoesProxy(up, [], io, []);
  }

  lemma NoSteps(s: Sys)
    ensures Exec(s, []) == s
  {
  }

  /** The environment of a health check that finds the core dead. */
  const FindsDead := Works(true).(localOk := false)

  /** A supervisor that ticks finds the core dead ... */
  function FallsBack(id: nat): seq<Step> {
    [TaskStep(id, Works(true)), TaskStep(id, FindsDead)]
  }

  /** ... and restarts it. */
  function ComesBack(id: nat): seq<Step> {
    [TaskStep(id, Works(true)), TaskStep(id, Works(true)), TaskStep(id, Works(true)), TaskStep(id, Works(true))]
  }

  lemma BeginsToRecover(s: Sys, id: nat)
    requires id in s.tasks && s.tasks[id].pc.Tick? && s.conn == Connected && s.active.Some? && s.restarts < s.cfg.restartMax
    ensures var r := Exec(s, FallsBack(id));
            && r.conn == Reconnecting && id in r.tasks && r.tasks[id].pc == RecStop(s.active.value, s.active.value)
            && r.proxy == s.proxy && r.record == s.record && r.core == s.core
  {
    var a, b := TaskStep(id, Works(true)), TaskStep(id, FindsDead);
    LT.TwoSteps(s, a, b, []);
    assert [a, b] + [] == FallsBack(id);
    var mid := Do(s, a);
    assert mid == Goto(s, id, Checking(s.tasks[id].pc.strikes));
    NoSteps(Do(mid, b));
    hide Exec;
  }

  lemma RestartsCore(s: Sys, id: nat, node: string)
    requires id in s.tasks && s.tasks[id].pc == RecStop(node, node) && s.core.spawning.None?
    ensures var step := TaskStep(id, Works(true));
            var r := Do(Do(Do(s, step), step), step);
            id in r.tasks && r.tasks[id].pc == RecCheck(node, node) && r.core.status == K.Running && r.conn == s.conn
  {
    hide TickMoves, MarkRecovered, GiveUp, AfterRecover, ProxyCleared;
    var step := TaskStep(id, Works(true));
    var s1 := Do(s, step);
    assert s1.tasks[id].pc == RecStart(node, node) && s1.core.child.None? && s1.core.spawning.None?;
    var s2 := Do(s1, step);
    assert s2.tasks[id].pc == RecWait(node, node) && s2.core.spawning.Some?;
  }

  lemma Recovers(s: Sys, id: nat, node: string)
    requires id in s.tasks && s.tasks[id].pc == RecStop(node, node) && s.conn == Reconnecting && s.core.spawning.None?
    ensures Exec(s, ComesBack(id)).conn == Connected
  {
    hide Exec, TickMoves, CoreMoves, GiveUp, ProxyCleared, CtxMode;
    var step := TaskStep(id, Works(true));
    FourSteps(s, step, step, step, step);
    RestartsCore(s, id, node);
  }

  /** While the startup task waits, the supervisor finds the core dead, the reaping having killed it perhaps, and goes
      to RECONNECTING; the recovery ends in CONNECTED after the startup is done. The proxy is undone, even where the
      record on disk asks for another target that would have been dialled a moment before. */
  lemma StartupDuringRecovery(s: Sys, id: nat, io: Io)
    requires LT.Reachable(s) && s.holder.Free? && s.startupPending && s.conn == Connected
    requires id in s.tasks && s.tasks[id].pc.Tick? && s.cfg.restartMax > 0 && s.record.node != "" && io.budget >= 4
    requires RS.Clean(s.proxy, s.cfg.hp) && R.Dangling(s.proxy.reg, s.cfg.hp)
    ensures var q := Exec(Do(s, BeginStartup), FallsBack(id));
            q.conn == Reconnecting && Undercut(Exec(Do(q, HolderStep(io)), ComesBack(id)))
  {
    hide Exec, RS.Clean, R.Dangling, FallsBack, ComesBack;
    LT.ReachableIsSound(s);
    AliveMeans(s, id);
    var s1 := Do(s, BeginStartup);
    assert s1 == s.(holder := Reap, startupPending := false);
    hide Do, Inv;
    BeginsToRecover(s1, id);
    var q := Exec(s1, FallsBack(id));
    assert Unguarded(FallsBack(id)) && Unguarded(ComesBack(id)) by { StepsAreUnguarded(id); }
    UnguardedRun(s1, FallsBack(id));
    LateStartupUndoesProxy(s, FallsBack(id), io, ComesBack(id));
    StartupKeepsTasks(q, io);
    Recovers(Do(q, HolderStep(io)), id, s.active.value);
  }

  lemma StepsAreUnguarded(id: nat)
    ensures Unguarded(FallsBack(id)) && Unguarded(ComesBack(id))
  {
  }

  lemma RefusedKeepsTasks(s: Sys, op: Op, io: Io)
    requires op.Connect? && s.conn == Reconnecting
    ensures var r := Enter(s, op, io); r.tasks == s.tasks && r.core == s.core
  {
    hide R.RestoreOutcome, R.EnsureOutcome, Parsed, Dial, TakeMonitor, Transition;
  }

  lemma StartupKeepsTasks(s: Sys, io: Io)
    requires s.holder.Reap? && s.conn == Reconnecting
    ensures var r := Do(s, HolderStep(io)); r.tasks == s.tasks && r.core.spawning == s.core.spawning
  {
    hide R.Run, R.RestoreOutcome, Parsed, Enter;
    if LR.Reconnects(s, io) {
      LR.StartupHandsOver(s, io);
      RefusedKeepsTasks(LR.Handed(s, io), Connect(Request(s.record.node, Named(s.record.mode)), true), io);
    }
  }

  /** So it ends from a start whose record asks for another node than the first request does, if the record of that
      request did not reach the disk. */
  lemma InterleavedStartupIsReachable(cfg: Config, reg: R.Registry, other: string, mode: Mode, req: Request, io: Io)
    requires R.Plain(cfg.hp) && cfg.restore && cfg.restartMax > 0 && other != "" && other != req.node
    requires io.lookup == Enabled && io.budget >= 4
    ensures var up := Exec(StartWith(cfg, reg, Record(Connected, other, mode)), UpSteps(req, false));
            var q := Exec(Do(up, BeginStartup), FallsBack(0));
            && LT.Reachable(up) && LR.GoesAhead(up, io)
            && Undercut(Exec(Do(q, HolderStep(io)), ComesBack(0)))
  {
    hide Exec, RS.Clean, R.Dangling, Do, Parsed;
    ConnectionIsUp(cfg, reg, Record(Connected, other, mode), req, false);
    StartupDuringRecovery(Exec(StartWith(cfg, reg, Record(Connected, other, mode)), UpSteps(req, false)), 0, io);
  }
}
