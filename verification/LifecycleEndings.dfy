/** What a disconnect and a recovery do from beginning to end, whatever others do in between. */
module LifecycleEndings {
  import opened Prelude
  import opened ConnState
  import opened Lifecycle
  import opened LifecycleInvariant
  import opened LifecycleScenarios
  import opened LifecycleStartup
  import opened LifecycleErrors
  import R = Route
  import RS = RouteSafety
  import K = Core
  import M = Monitor
  import LR = LifecycleRegistry
  import LT = LifecycleTheorems

  // ---------- The whole disconnect ----------

  /** The registry writes that the first supervisor to give up among these steps gets through. */
  function FirstClear(s: Sys, steps: seq<Step>): Option<nat>
    decreases |steps|
  {
    if steps == [] then None
    else if steps[0].TaskStep? && steps[0].id in s.tasks && s.tasks[steps[0].id].pc.GiveUpProxy?
    then Some(steps[0].io.budget)
    else FirstClear(Do(s, steps[0]), steps[1..])
  }

  lemma TaskKeepsMode(s: Sys, id: nat, io: Io)
    requires id in s.tasks
    ensures TaskMoves(s, id, io).ctxMode == s.ctxMode
  {
    hide R.ClearOutcome, R.ClearSucceeds, K.Stop, K.BeginStart, K.FinishStart, K.Check;
  }

  /** The proxy after such steps is the one before, or that after one clear: later ones find no snapshot. */
  lemma {:induction false} UnguardedProxy(s: Sys, steps: seq<Step>)
    requires Unguarded(steps)
    ensures var r := Exec(s, steps);
            && r.ctxMode == s.ctxMode
            && match FirstClear(s, steps)
               case None => r.proxy == s.proxy
               case Some(budget) => r.proxy == R.ClearOutcome(s.proxy, budget)
    decreases |steps|
  {
    hide Do, R.ClearOutcome;
    if steps != [] {
      var step := steps[0];
      UnguardedProxy(Do(s, step), steps[1..]);
      UnguardedOnce(s, step);
      if step.TaskStep? && step.id in s.tasks && s.tasks[step.id].pc.GiveUpProxy? {
        RS.ClearDropsSnapshot(s.proxy, step.io.budget);
        var q := Do(s, step);
        match FirstClear(q, steps[1..])
        case None =>
        case Some(budget) => LR.ClearOfNothing(q.proxy, budget);
      }
    }
  }

  lemma UnguardedOnce(s: Sys, step: Step)
    requires step.TaskStep? || step.ProcessDies?
    ensures var r := Do(s, step);
            && r.ctxMode == s.ctxMode
            && r.proxy == if step.TaskStep? && step.id in s.tasks && s.tasks[step.id].pc.GiveUpProxy?
                          then R.ClearOutcome(s.proxy, step.io.budget) else s.proxy
  {
    hide TaskMoves, R.ClearOutcome, R.ClearSucceeds;
    if step.TaskStep? && step.id in s.tasks {
      TaskKeepsMode(s, step.id, step.io);
      if s.tasks[step.id].pc.GiveUpProxy? {
        LR.GiveUpProxyStep(s, step.id, step.io);
      } else {
        LR.TaskIsQuiet(s, step.id, step.io);
      }
    }
  }

  lemma DisconnectBegins(s: Sys)
    requires s.holder.Free? && (s.conn == Connected || s.conn == Reconnecting)
    ensures var r := Do(s, BeginDisconnect);
            && r.holder.WaitMonitor? && r.holder.op == Disconnect && r.conn == State.Stopping
            && r.proxy == s.proxy && r.cfg == s.cfg && r.ctxMode == s.ctxMode
  {
  }

  lemma DisconnectWaits(s: Sys)
    requires Inv(s) && s.holder.WaitMonitor? && s.holder.op == Disconnect
    ensures s.conn == State.Stopping || s.conn == Error
  {
  }

  /** The three segments after the wait. */
  lemma DisconnectEnds(s: Sys, a: Answers)
    requires s.holder.WaitMonitor? && s.holder.op == Disconnect && HolderEnabled(s)
    requires s.conn == State.Stopping || s.conn == Error
    ensures var r := Proceed(s, a, 3);
            && r.holder.Free? && r.conn == Stopped && r.core.child.None? && r.session.None? && r.active.None?
            && r.proxy == R.ClearOutcome(s.proxy, a.clear.budget) && r.cfg == s.cfg
            && r.record == if a.clean.persisted then Record(Stopped, "", CtxMode(s)) else s.record
  {
    hide R.ClearOutcome, R.ClearSucceeds;
    var s2 := Do(s, HolderStep(a.dial));
    var s3 := Do(s2, HolderStep(a.clear));
    assert s2.holder == ClearProxy(Disconnect, "") && s3.holder == CleanCore(Disconnect, "") && s3.ctxMode == s.ctxMode;
    var r := Do(s3, HolderStep(a.clean));
    assert r.holder.Free? && r.conn == Stopped && r.core.child.None?;
    hide Do, HolderEnabled;
    ProceedOnce(s, a, 3);
    ProceedOnce(s2, a, 2);
    ProceedOnce(s3, a, 1);
    NothingLeft(r, a, 0);
  }

  /** A disconnect of a connection that is up or coming back, whatever its supervisor still does until it is gone:
      it ends in STOPPED with nothing held and no task left. The proxy is cleared once, by the disconnect or by a
      recovery that gave up during the wait, and so the user's settings are back if that clear's writes succeed, and a
      dead proxy is left exactly as that clear leaves one. */
  lemma WholeDisconnect(s: Sys, wait: seq<Step>, a: Answers)
    requires LT.Reachable(s) && s.holder.Free? && (s.conn == Connected || s.conn == Reconnecting)
    requires RS.Clean(s.proxy, s.cfg.hp) && Unguarded(wait) && HolderEnabled(Exec(Do(s, BeginDisconnect), wait))
    ensures var q := Exec(Do(s, BeginDisconnect), wait);
            var r := Proceed(q, a, 3);
            var first := FirstClear(Do(s, BeginDisconnect), wait);
            var budget := if first.Some? then first.value else a.clear.budget;
            && LT.Reachable(r) && r.holder.Free? && r.conn == Stopped && r.tasks == map[] && r.core.live <= r.stale
            && r.core.child.None? && r.session.None? && r.active.None? && r.proxy.saved.None?
            && r.record == (if a.clean.persisted
                            then Record(Stopped, "", match s.ctxMode case Some(mode) => mode case None => Smart)
                            else q.record)
            && r.proxy == R.ClearOutcome(s.proxy, budget)
            && (s.proxy.saved.Some? && R.ClearSucceeds(s.proxy, budget) ==>
                  r.proxy == R.Proxy(RS.Restored(s.proxy.reg, s.proxy.saved.value), None, None))
            && (R.Dangling(r.proxy.reg, s.cfg.hp) <==> RS.ClearLeavesDeadProxy(s.proxy, s.cfg.hp, budget))
  {
    hide Do, Exec, Proceed, Inv, R.Dangling, R.ClearOutcome, R.ClearSucceeds, RS.ClearLeavesDeadProxy, RS.Clean, RS.Restored,
         HolderEnabled, FirstClear, Unguarded;
    DisconnectBegins(s);
    var s1 := Do(s, BeginDisconnect);
    var q := Exec(s1, wait);
    OneStep(s, BeginDisconnect);
    ReachableFurther(s, [BeginDisconnect]);
    ReachableFurther(s1, wait);
    UnguardedRun(s1, wait);
    UnguardedProxy(s1, wait);
    LT.ReachableIsSound(q);
    DisconnectWaits(q);
    DisconnectEnds(q, a);
    ProceedReaches(q, a, 3);
    var r := Proceed(q, a, 3);
    LT.SupervisorCount(r);
    LT.NoOrphanCore(r);
    LT.RestingResources(r);
    var first := FirstClear(s1, wait);
    if first.Some? {
      RS.ClearDropsSnapshot(s.proxy, first.value);
      LR.ClearOfNothing(q.proxy, a.clear.budget);
    }
    var budget := if first.Some? then first.value else a.clear.budget;
    RS.ClearLeavesDeadProxyExactly(s.proxy, s.cfg.hp, budget);
    if s.proxy.saved.Some? && R.ClearSucceeds(s.proxy, budget) {
      RS.ClearDropsBackup(s.proxy, budget);
    }
  }

  /** In every other state but ERROR a disconnect changes nothing at all. */
  lemma DisconnectIsRefusedExactly(s: Sys)
    requires s.holder.Free?
    ensures Do(s, BeginDisconnect) == s <==> s.conn != Connected && s.conn != Reconnecting && s.conn != Error
  {
  }

  function ProceedSteps(s: Sys, a: Answers, n: nat): seq<Step>
    decreases n
  {
    if n == 0 then []
    else var step := HolderStep(Answer(a, s.holder)); [step] + ProceedSteps(Do(s, step), a, n - 1)
  }

  lemma {:induction false} ProceedIsExec(s: Sys, a: Answers, n: nat)
    ensures Proceed(s, a, n) == Exec(s, ProceedSteps(s, a, n))
    decreases n
  {
    hide Do;
    if n > 0 {
      var step := HolderStep(Answer(a, s.holder));
      ProceedIsExec(Do(s, step), a, n - 1);
    }
  }

  /** Over any run of connects, live switches and recoveries and a final disconnect, all without a failing write: the
      registry is the one before the first connect, or that one after a single cycle. */
  lemma FinalDisconnectRestores(s: Sys, steps: seq<Step>, wait: seq<Step>, a: Answers)
    requires LT.Reachable(s) && LR.Settled(s) && s.proxy.saved.None? && !s.hist.regFault && RS.Clean(s.proxy, s.cfg.hp)
    requires var up := Exec(s, steps);
             && up.holder.Free? && (up.conn == Connected || up.conn == Reconnecting)
             && Unguarded(wait) && HolderEnabled(Exec(Do(up, BeginDisconnect), wait))
    ensures var r := Proceed(Exec(Do(Exec(s, steps), BeginDisconnect), wait), a, 3);
            r.conn == Stopped
            && (!r.hist.regFault ==>
                  r.proxy.reg == s.proxy.reg || r.proxy.reg == RS.AfterCycle(s.proxy.reg, s.cfg.hp, s.cfg.bypass))
  {
    hide Do, Exec, Proceed, R.Dangling, R.ClearOutcome, R.ClearSucceeds, RS.ClearLeavesDeadProxy, RS.Clean, RS.Restored,
         HolderEnabled, FirstClear, Unguarded, LR.Settled, RS.AfterCycle;
    var up := Exec(s, steps);
    ReachableFurther(s, steps);
    LR.RunsStayClean(s, steps);
    LR.RegistryRun(s.proxy.reg, s, []);
    var s1 := Do(up, BeginDisconnect);
    OneStep(up, BeginDisconnect);
    var q := Exec(s1, wait);
    ExecAppend(s, steps, [BeginDisconnect]);
    ExecAppend(s, steps + [BeginDisconnect], wait);
    ProceedIsExec(q, a, 3);
    ExecAppend(s, steps + [BeginDisconnect] + wait, ProceedSteps(q, a, 3));
    LR.RunsRestoreTheRegistry(s, steps + [BeginDisconnect] + wait + ProceedSteps(q, a, 3));
    CfgIsFixed(s, steps);
    WholeDisconnect(up, wait, a);
  }

  lemma {:induction false} CfgIsFixed(s: Sys, steps: seq<Step>)
    requires LR.Settled(s)
    ensures Exec(s, steps).cfg == s.cfg
    decreases steps
  {
    hide Do, LR.Settled;
    if steps != [] {
      LR.OnlySetAndClearWrite(s, steps[0]);
      CfgIsFixed(Do(s, steps[0]), steps[1..]);
    }
  }

  // ---------- The whole recovery ----------

  /** The node a recovery dials: the same one if any restart is allowed, otherwise what smart selection offers. */
  predicate Chosen(max: nat, node: string, io: Io, target: string) {
    if max > 0 then target == node
    else io.smart && io.pick == Some(target) && target != node && io.lookup != Missing
  }

  predicate CoreComesUp(io: Io) {
    io.spawn == K.Spawned && io.wakeup == K.Up && io.localOk && io.tunnelOk
  }

  /** The environment lets the recovery succeed. */
  predicate Succeeds(max: nat, node: string, io: Io) {
    && (max > 0 || (io.smart && io.pick.Some? && io.pick.value != node && io.lookup != Missing))
    && CoreComesUp(io)
  }

  function Target(max: nat, node: string, io: Io): string {
    if max > 0 || io.pick.None? then node else io.pick.value
  }

  /** A recovery from `node` to which the environment gives these answers is at one of its waits. */
  ghost predicate OnCourse(s: Sys, id: nat, node: string, io: Io) {
    && Inv(s) && LR.Settled(s) && id in s.tasks && Recovering(s.tasks[id].pc)
    && match s.tasks[id].pc
       case Selecting(prev) => prev == node && s.cfg.restartMax == 0 && io.smart
       case RecStop(prev, target) => prev == node && Chosen(s.cfg.restartMax, node, io, target)
       case RecStart(prev, target) => prev == node && Chosen(s.cfg.restartMax, node, io, target)
       case RecWait(prev, target) => prev == node && Chosen(s.cfg.restartMax, node, io, target) && io.spawn == K.Spawned
       case RecCheck(prev, target) =>
         prev == node && Chosen(s.cfg.restartMax, node, io, target) && io.spawn == K.Spawned && io.wakeup == K.Up
       case GiveUpProxy(prev) => prev == node && !Succeeds(s.cfg.restartMax, node, io)
       case GiveUpCore(prev) => prev == node && !Succeeds(s.cfg.restartMax, node, io) && s.proxy.saved.None?
       case _ => false
  }

  /** Its last segment: the connection is up again, on the chosen node and with the restart counter back at 0, unless a
      disconnect waits; or everything is given up. */
  ghost predicate Concluded(s: Sys, r: Sys, id: nat, node: string, io: Io) {
    var mode := match s.ctxMode case Some(m) => m case None => Smart;
    if Succeeds(s.cfg.restartMax, node, io) then
      var target := Target(s.cfg.restartMax, node, io);
      && r.active == Some(target) && r.restarts == 0 && r.proxy == s.proxy && r.core.child.Some?
      && r.conn == (if s.conn == Reconnecting then Connected else State.Stopping)
      && r.record == (if io.persisted then Record(Connected, target, mode) else s.record)
      && (if r.conn == Connected then id in r.tasks && r.tasks[id].pc == Tick(0) else id !in r.tasks)
    else
      && r.active.None? && r.session.None? && r.core.child.None? && r.proxy == s.proxy && r.proxy.saved.None?
      && r.conn == Error && id !in r.tasks
      && r.record == if io.persisted then Record(Error, node, mode) else s.record
  }

  /** A run from there: on course until the recovery's own last segment concludes it. */
  ghost predicate Course(s: Sys, id: nat, node: string, io: Io, steps: seq<Step>)
    decreases |steps|
  {
    && OnCourse(s, id, node, io)
    && (steps != [] ==>
          var r := Do(s, steps[0]);
          || Course(r, id, node, io, steps[1..])
          || (steps[0] == TaskStep(id, io) && Concluded(s, r, id, node, io)))
  }

  lemma CourseOfCore(s: Sys, id: nat, node: string, io: Io)
    requires OnCourse(s, id, node, io)
    requires var pc := s.tasks[id].pc; pc.Selecting? || pc.RecStop? || pc.RecStart? || pc.RecWait?
    ensures OnCourse(Do(s, TaskStep(id, io)), id, node, io)
  {
    StepIsSound(s, TaskStep(id, io));
    LR.OnlySetAndClearWrite(s, TaskStep(id, io));
    AliveMeans(s, id);
    CoreNext(s, id, node, io);
  }

  lemma CoreNext(s: Sys, id: nat, node: string, io: Io)
    requires id in s.tasks
    requires var pc := s.tasks[id].pc;
             && (pc.Selecting? || pc.RecStop? || pc.RecStart? || pc.RecWait?) && pc.prev == node
             && (if pc.Selecting? then s.cfg.restartMax == 0 && io.smart else Chosen(s.cfg.restartMax, node, io, pc.target))
             && (pc.RecStart? ==> s.core.child.None?) && (pc.RecWait? ==> s.core.spawning.Some? && io.spawn == K.Spawned)
    ensures var r := Do(s, TaskStep(id, io));
            id in r.tasks && r.cfg == s.cfg &&
            match r.tasks[id].pc
            case RecStop(prev, target) => prev == node && Chosen(s.cfg.restartMax, node, io, target)
            case RecStart(prev, target) => prev == node && Chosen(s.cfg.restartMax, node, io, target)
            case RecWait(prev, target) =>
              prev == node && Chosen(s.cfg.restartMax, node, io, target) && io.spawn == K.Spawned
            case RecCheck(prev, target) =>
              prev == node && Chosen(s.cfg.restartMax, node, io, target) && io.spawn == K.Spawned && io.wakeup == K.Up
            case GiveUpProxy(prev) => prev == node && !Succeeds(s.cfg.restartMax, node, io)
            case _ => false
  {
    hide R.ClearOutcome, R.ClearSucceeds;
  }

  lemma CourseOfCheck(s: Sys, id: nat, node: string, io: Io)
    requires OnCourse(s, id, node, io) && s.tasks[id].pc.RecCheck?
    ensures var r := Do(s, TaskStep(id, io));
            OnCourse(r, id, node, io) || Concluded(s, r, id, node, io)
  {
    StepIsSound(s, TaskStep(id, io));
    LR.OnlySetAndClearWrite(s, TaskStep(id, io));
    AliveMeans(s, id);
    if !CoreComesUp(io) {
      CheckFails(s, id, io);
    } else {
      hide Inv, LR.Settled;
      CheckSucceeds(s, id, io);
    }
  }

  lemma CheckFails(s: Sys, id: nat, io: Io)
    requires id in s.tasks && s.tasks[id].pc.RecCheck? && !(io.localOk && io.tunnelOk)
    ensures var r := Do(s, TaskStep(id, io));
            r.cfg == s.cfg && id in r.tasks && r.tasks[id].pc == GiveUpProxy(s.tasks[id].pc.prev)
  {
  }

  lemma CheckSucceeds(s: Sys, id: nat, io: Io)
    requires id in s.tasks && s.tasks[id].pc.RecCheck? && io.localOk && io.tunnelOk && s.core.status == K.Running
    requires s.conn == Reconnecting || s.conn == State.Stopping
    ensures var r := Do(s, TaskStep(id, io));
            var target := s.tasks[id].pc.target;
            && r.active == Some(target) && r.restarts == 0 && r.proxy == s.proxy && r.core == s.core && r.cfg == s.cfg
            && r.conn == (if s.conn == Reconnecting then Connected else State.Stopping)
            && r.record == (if io.persisted then Record(Connected, target, CtxMode(s)) else s.record)
            && (if r.conn == Connected then id in r.tasks && r.tasks[id].pc == Tick(0) else id !in r.tasks)
  {
    hide CtxMode;
  }

  lemma CourseOfGivingUp(s: Sys, id: nat, node: string, io: Io)
    requires OnCourse(s, id, node, io) && (s.tasks[id].pc.GiveUpProxy? || s.tasks[id].pc.GiveUpCore?)
    ensures var r := Do(s, TaskStep(id, io));
            OnCourse(r, id, node, io) || Concluded(s, r, id, node, io)
  {
    StepIsSound(s, TaskStep(id, io));
    LR.OnlySetAndClearWrite(s, TaskStep(id, io));
    AliveMeans(s, id);
    if s.tasks[id].pc.GiveUpProxy? {
      hide R.ClearOutcome, R.ClearSucceeds;
      LR.GiveUpProxyStep(s, id, io);
      RS.ClearDropsSnapshot(s.proxy, io.budget);
    } else {
      hide Inv, LR.Settled;
      EverythingGivenUp(s, id, io);
    }
  }

  lemma EverythingGivenUp(s: Sys, id: nat, io: Io)
    requires id in s.tasks && s.tasks[id].pc.GiveUpCore?
    ensures var r := Do(s, TaskStep(id, io));
            && r.active.None? && r.session.None? && r.core.child.None? && r.proxy == s.proxy
            && r.conn == Error && id !in r.tasks
            && r.record == if io.persisted then Record(Error, s.tasks[id].pc.prev, CtxMode(s)) else s.record
  {
  }

  lemma CourseOfOthers(s: Sys, id: nat, node: string, io: Io, step: Step)
    requires OnCourse(s, id, node, io) && !(step.TaskStep? && step.id == id)
    ensures OnCourse(Do(s, step), id, node, io)
  {
    StepIsSound(s, step);
    LR.OnlySetAndClearWrite(s, step);
    AliveMeans(s, id);
    assert step.TaskStep? ==> step.id !in s.tasks;
    if s.tasks[id].pc.GiveUpCore? {
      WaitingToGiveUp(s, id, step);
    }
    OthersLeaveTask(s, id, step);
  }

  lemma OthersLeaveTask(s: Sys, id: nat, step: Step)
    requires s.holder.Free? || s.holder.Register? || (s.holder.WaitMonitor? && s.holder.awaited == Some(id))
    requires s.holder.Free? ==> s.conn == Reconnecting
    requires id in s.tasks && (step.TaskStep? ==> step.id !in s.tasks)
    ensures var r := Do(s, step); id in r.tasks && r.tasks[id].pc == s.tasks[id].pc
  {
    hide R.RestoreOutcome, R.EnsureOutcome, Parsed, Dial;
  }

  /** A recovery from beginning to end, with any steps of others in between: it succeeds if and only if a restart is
      allowed, or smart selection offers another node that exists, and the core comes up; then the connection is
      up on that node. Otherwise it gives everything up. */
  lemma {:induction false} WholeRecovery(s: Sys, id: nat, node: string, io: Io, steps: seq<Step>)
    requires OnCourse(s, id, node, io)
    requires forall i | 0 <= i < |steps| && steps[i].TaskStep? && steps[i].id == id :: steps[i].io == io
    ensures Course(s, id, node, io, steps)
    decreases |steps|
  {
    hide Do, OnCourse, Concluded;
    if steps != [] {
      var r := Do(s, steps[0]);
      if steps[0].TaskStep? && steps[0].id == id {
        assert steps[0] == TaskStep(id, io);
        OwnStep(s, id, node, io);
      } else {
        CourseOfOthers(s, id, node, io, steps[0]);
      }
      if OnCourse(r, id, node, io) {
        WholeRecovery(r, id, node, io, steps[1..]);
      }
    }
  }

  lemma OwnStep(s: Sys, id: nat, node: string, io: Io)
    requires OnCourse(s, id, node, io)
    ensures var r := Do(s, TaskStep(id, io)); OnCourse(r, id, node, io) || Concluded(s, r, id, node, io)
  {
    assert id in s.tasks;
    var pc := s.tasks[id].pc;
    hide Do, Concluded;
    if pc.RecCheck? {
      CourseOfCheck(s, id, node, io);
    } else if pc.GiveUpProxy? || pc.GiveUpCore? {
      CourseOfGivingUp(s, id, node, io);
    } else {
      CourseOfCore(s, id, node, io);
    }
  }

  /** Such a recovery begins with the check that raises the alarm: the connection goes to RECONNECTING. */
  lemma RecoveryBegins(s: Sys, id: nat, alarm: Io, io: Io)
    requires LT.Reachable(s) && LR.Settled(s) && id in s.tasks && s.tasks[id].pc.Checking? && s.conn == Connected
    requires M.Next(s.tasks[id].pc.strikes, K.Check(s.core, alarm.localOk, alarm.tunnelOk)).None?
    requires alarm.smart == io.smart
    ensures var r := Do(s, TaskStep(id, alarm));
            s.active.Some? && r.conn == Reconnecting && r.proxy == s.proxy && r.core == s.core
            && OnCourse(r, id, s.active.value, io)
  {
    LT.ReachableIsSound(s);
    StepIsSound(s, TaskStep(id, alarm));
    LR.OnlySetAndClearWrite(s, TaskStep(id, alarm));
    AliveMeans(s, id);
    FirstSegment(s, id, alarm, io);
  }

  lemma FirstSegment(s: Sys, id: nat, alarm: Io, io: Io)
    requires id in s.tasks && s.tasks[id].pc.Checking? && s.conn == Connected && s.active.Some? && s.restarts == 0
    requires M.Next(s.tasks[id].pc.strikes, K.Check(s.core, alarm.localOk, alarm.tunnelOk)).None? && alarm.smart == io.smart
    ensures var r := Do(s, TaskStep(id, alarm));
            var node := s.active.value;
            && r.conn == Reconnecting && r.proxy == s.proxy && r.core == s.core && r.cfg == s.cfg && id in r.tasks
            && match r.tasks[id].pc
               case Selecting(prev) => prev == node && s.cfg.restartMax == 0 && io.smart
               case RecStop(prev, target) => prev == node && Chosen(s.cfg.restartMax, node, io, target)
               case GiveUpProxy(prev) => prev == node && !Succeeds(s.cfg.restartMax, node, io)
               case _ => false
  {
    hide K.Check, M.Next;
  }
}
