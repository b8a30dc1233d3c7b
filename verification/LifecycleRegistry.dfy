/** The system proxy over whole runs of the connection protocol: what a user gets back, what a
    crash can leave behind, and what the next start makes of it. */
module LifecycleRegistry {
  import opened Prelude
  import opened ConnState
  import opened Lifecycle
  import opened LifecycleInvariant
  import R = Route
  import RS = RouteSafety
  import K = Core

  // ---------- Which steps write the registry ----------

  /** The startup task has done its work: no boot-time connect is under way. */
  predicate Settled(s: Sys) {
    && !s.startupPending && !s.holder.Reap?
    && (s.holder.Free? || !s.holder.op.Connect? || !s.holder.op.boot)
  }

  predicate SameProxy(s: Sys, r: Sys) {
    r.proxy == s.proxy && r.hist.regFault == s.hist.regFault && r.cfg == s.cfg
  }

  lemma AbortIsQuiet(s: Sys, op: Op, node: string, io: Io)
    requires op.Connect? && !op.boot && !s.startupPending
    ensures Settled(Abort(s, op, node, io)) && SameProxy(s, Abort(s, op, node, io))
  {
    hide Parsed;
  }

  lemma ContextIsQuiet(s: Sys, to: State, mode: Mode)
    ensures var r := SetContext(s, to, mode); SameProxy(s, r) && r.startupPending == s.startupPending
  {
  }

  lemma DialIsQuiet(s: Sys, op: Op, live: bool, io: Io)
    requires op.Connect? && !op.boot && !s.startupPending
    ensures Settled(Dial(s, op, live, io)) && SameProxy(s, Dial(s, op, live, io))
  {
    hide Parsed, Abort, SetContext;
    AbortIsQuiet(s.(hist := s.hist.(switchAborted := s.hist.switchAborted || live)), op, "", io);
    ContextIsQuiet(s.(hist := s.hist.(switchAborted := false)), Connecting, Parsed(op.req.mode));
  }

  lemma EnterIsQuiet(s: Sys, op: Op, io: Io)
    requires op.Connect? && !op.boot && !s.startupPending
    ensures Settled(Enter(s, op, io)) && SameProxy(s, Enter(s, op, io))
  {
    hide Parsed, Dial;
    DialIsQuiet(Transition(s, Starting), op, false, io);
  }

  /** What no step of a supervisor touches, except giving up the proxy. */
  predicate Undisturbed(s: Sys, r: Sys) {
    SameProxy(s, r) && r.holder == s.holder && r.startupPending == s.startupPending
  }

  lemma TickIsQuiet(s: Sys, id: nat, io: Io)
    requires id in s.tasks && (s.tasks[id].pc.Tick? || s.tasks[id].pc.Checking?)
    ensures Undisturbed(s, TickMoves(s, id, io))
  {
    hide K.Check;
  }

  lemma CoreIsQuiet(s: Sys, id: nat, io: Io)
    requires id in s.tasks
    requires var pc := s.tasks[id].pc; pc.RecStop? || pc.RecStart? || pc.RecWait?
    ensures Undisturbed(s, CoreMoves(s, id, io))
  {
    hide K.Stop, K.BeginStart, K.FinishStart;
  }

  lemma RecoveryEndIsQuiet(s: Sys, id: nat, io: Io)
    requires id in s.tasks && (s.tasks[id].pc.RecCheck? || s.tasks[id].pc.GiveUpCore?)
    ensures Undisturbed(s, TaskMoves(s, id, io))
  {
    hide K.Check, K.Stop, CtxMode, TickMoves, CoreMoves;
  }

  lemma TaskIsQuiet(s: Sys, id: nat, io: Io)
    requires id in s.tasks && !s.tasks[id].pc.GiveUpProxy?
    ensures Undisturbed(s, TaskMoves(s, id, io))
  {
    var pc := s.tasks[id].pc;
    if pc.Tick? || pc.Checking? {
      hide TickMoves, Undisturbed;
      TickIsQuiet(s, id, io);
    } else if pc.RecStop? || pc.RecStart? || pc.RecWait? {
      hide CoreMoves, Undisturbed;
      CoreIsQuiet(s, id, io);
    } else if pc.RecCheck? || pc.GiveUpCore? {
      hide TaskMoves, Undisturbed;
      RecoveryEndIsQuiet(s, id, io);
    }
  }

  predicate Sets(s: Sys, step: Step) {
    step.HolderStep? && s.holder.SetProxy? && s.holder.op.Connect?
  }

  predicate Clears(s: Sys, step: Step) {
    || (step.HolderStep? && s.holder.ClearProxy?)
    || (step.TaskStep? && step.id in s.tasks && s.tasks[step.id].pc.GiveUpProxy?)
  }

  /** After the startup, the registry, the snapshot and the backup change in two places only. */
  lemma OnlySetAndClearWrite(s: Sys, step: Step)
    requires Settled(s)
    ensures var r := Do(s, step);
            && Settled(r) && r.cfg == s.cfg
            && (if Sets(s, step) then
                  && r.proxy == R.SetOutcome(s.proxy, s.cfg.hp, s.cfg.bypass, step.io.budget, step.io.backupOk)
                  && r.hist.regFault == (s.hist.regFault || !R.SetSucceeds(s.proxy, step.io.budget))
                else if Clears(s, step) then
                  && r.proxy == R.ClearOutcome(s.proxy, step.io.budget)
                  && r.hist.regFault == (s.hist.regFault || !R.ClearSucceeds(s.proxy, step.io.budget))
                else SameProxy(s, r))
  {
    hide Enter, HolderMoves, TaskMoves, R.SetOutcome, R.SetSucceeds, R.ClearOutcome, R.ClearSucceeds;
    match step
    case BeginConnect(req, io) => EnterIsQuiet(s, Connect(req, false), io);
    case HolderStep(io) =>
      if HolderEnabled(s) {
        HolderIsQuiet(s, io);
      }
    case TaskStep(id, io) =>
      if id in s.tasks {
        if s.tasks[id].pc.GiveUpProxy? {
          GiveUpProxyStep(s, id, io);
        } else {
          TaskIsQuiet(s, id, io);
        }
      }
    case _ =>
  }

  lemma ProxySetWrites(s: Sys, io: Io)
    requires Settled(s) && s.holder.SetProxy? && s.holder.op.Connect?
    ensures var r := ProxySet(s, io);
            && Settled(r) && r.cfg == s.cfg
            && r.proxy == R.SetOutcome(s.proxy, s.cfg.hp, s.cfg.bypass, io.budget, io.backupOk)
            && r.hist.regFault == (s.hist.regFault || !R.SetSucceeds(s.proxy, io.budget))
  {
    hide R.SetOutcome, R.SetSucceeds, Parsed;
  }

  lemma CleanedIsQuiet(s: Sys, io: Io)
    requires Settled(s) && s.holder.CleanCore?
    ensures Settled(Cleaned(s, io)) && SameProxy(s, Cleaned(s, io))
  {
    hide Abort, K.Stop, CtxMode;
    if s.holder.op.Connect? {
      AbortIsQuiet(s.(core := K.Stop(s.core), session := None), s.holder.op, s.holder.node, io);
    }
  }

  lemma CoreStoppedIsQuiet(s: Sys, io: Io)
    requires Settled(s) && s.holder.StopCore? && s.holder.op.Connect?
    ensures Settled(CoreStopped(s, io)) && SameProxy(s, CoreStopped(s, io))
  {
    hide Dial, K.Stop;
    DialIsQuiet(Transition(s.(core := K.Stop(s.core), session := None, active := None), Starting),
                s.holder.op, true, io);
  }

  lemma HolderIsQuiet(s: Sys, io: Io)
    requires Settled(s) && HolderEnabled(s)
    ensures var r := HolderMoves(s, io);
            && Settled(r) && r.cfg == s.cfg
            && (if s.holder.SetProxy? then
                  && r.proxy == R.SetOutcome(s.proxy, s.cfg.hp, s.cfg.bypass, io.budget, io.backupOk)
                  && r.hist.regFault == (s.hist.regFault || !R.SetSucceeds(s.proxy, io.budget))
                else if s.holder.ClearProxy? then
                  && r.proxy == R.ClearOutcome(s.proxy, io.budget)
                  && r.hist.regFault == (s.hist.regFault || !R.ClearSucceeds(s.proxy, io.budget))
                else SameProxy(s, r))
  {
    hide CoreStopped, Startup, ProxySet, Cleaned, R.SetOutcome, R.SetSucceeds, R.ClearOutcome, R.ClearSucceeds,
         K.BeginStart, K.FinishStart;
    match s.holder
    case StopCore(_) => CoreStoppedIsQuiet(s, io);
    case SetProxy(_, _) => ProxySetWrites(s, io);
    case CleanCore(_, _) => CleanedIsQuiet(s, io);
    case _ =>
  }

  lemma GiveUpProxyStep(s: Sys, id: nat, io: Io)
    requires id in s.tasks && s.tasks[id].pc.GiveUpProxy?
    ensures TaskMoves(s, id, io) == Goto(ProxyCleared(s, io), id, GiveUpCore(s.tasks[id].pc.prev))
  {
  }

  // ---------- The registry over a whole run ----------

  function Cycled(b: R.Registry, cfg: Config): R.Registry {
    RS.AfterCycle(b, cfg.hp, cfg.bypass)
  }

  function Snapshot(b: R.Registry, cfg: Config): R.Saved {
    R.Sanitize(R.Query(b), cfg.hp)
  }

  /** Relative to the registry `b` at some moment without a snapshot. */
  ghost predicate RegistryOk(b: R.Registry, s: Sys) {
    && Settled(s)
    && (!s.hist.regFault ==>
          match s.proxy.saved
          case None => s.proxy.reg == b || s.proxy.reg == Cycled(b, s.cfg)
          case Some(sv) =>
            && s.proxy.reg == RS.Own(s.cfg.hp, s.cfg.bypass)
            && (sv == Snapshot(b, s.cfg) || sv == Snapshot(Cycled(b, s.cfg), s.cfg)))
  }

  lemma CycledTwice(b: R.Registry, cfg: Config)
    ensures Cycled(Cycled(b, cfg), cfg) == Cycled(b, cfg)
  {
    var p := R.Proxy(b, None, None);
    RS.CycleResult(p, cfg.hp, cfg.bypass);
    RS.CycleResult(RS.Cycle(p, cfg.hp, cfg.bypass), cfg.hp, cfg.bypass);
    RS.CycleIsIdempotent(p, cfg.hp, cfg.bypass);
  }

  /** A set without fault takes the sanitised snapshot and installs our endpoint; only the copy on
      disk depends on the disk. */
  lemma FaultlessSet(p: R.Proxy, hp: string, bypass: string, budget: nat, backupOk: bool)
    requires p.saved.None? && R.SetSucceeds(p, budget)
    ensures var q := R.SetOutcome(p, hp, bypass, budget, backupOk);
            q.reg == RS.Own(hp, bypass) && q.saved == Some(R.Sanitize(R.Query(p.reg), hp))
  {
    var sv := R.Sanitize(R.Query(p.reg), hp);
    var ws := R.ApplyWrites(Some((R.OwnSpec(hp), bypass)));
    R.PutSomeAppend(p, ws, [R.Remember(sv), R.StoreBackup(sv)], if backupOk then 5 else 4);
    R.PutAllThree(p, ws[0], ws[1], ws[2]);
    R.PutAllThree(R.PutAll(p, ws), R.Remember(sv), R.StoreBackup(sv), R.DropBackup);
    assert [R.Remember(sv), R.StoreBackup(sv)][..1] == [R.Remember(sv)];
  }

  lemma RegistryStep(b: R.Registry, s: Sys, step: Step)
    requires RegistryOk(b, s)
    ensures RegistryOk(b, Do(s, step))
  {
    hide Do, Settled, R.SetOutcome, R.SetSucceeds, R.ClearOutcome, R.ClearSucceeds, R.Sanitize;
    OnlySetAndClearWrite(s, step);
    CycledTwice(b, s.cfg);
    var p := s.proxy;
    if Sets(s, step) {
      if p.saved.Some? {
        RS.SetKeepsSnapshot(p, s.cfg.hp, s.cfg.bypass, step.io.budget, step.io.backupOk);
      } else if R.SetSucceeds(p, step.io.budget) {
        FaultlessSet(p, s.cfg.hp, s.cfg.bypass, step.io.budget, step.io.backupOk);
      }
    } else if Clears(s, step) {
      if p.saved.None? {
        assert R.ClearOutcome(p, step.io.budget) == p by { ClearOfNothing(p, step.io.budget); }
      } else if R.ClearSucceeds(p, step.io.budget) {
        RS.ClearDropsBackup(p, step.io.budget);
      }
    }
  }

  lemma ClearOfNothing(p: R.Proxy, budget: nat)
    requires p.saved.None?
    ensures R.ClearOutcome(p, budget) == p
  {
  }

  lemma {:induction false} RegistryRun(b: R.Registry, s: Sys, steps: seq<Step>)
    requires RegistryOk(b, s)
    ensures RegistryOk(b, Exec(s, steps)) && Exec(s, steps).cfg == s.cfg
    decreases steps
  {
    hide RegistryOk, Do;
    if steps != [] {
      RegistryStep(b, s, steps[0]);
      assert Do(s, steps[0]).cfg == s.cfg by { CfgStays(b, s, steps[0]); }
      RegistryRun(b, Do(s, steps[0]), steps[1..]);
    }
  }

  lemma CfgStays(b: R.Registry, s: Sys, step: Step)
    requires RegistryOk(b, s)
    ensures Do(s, step).cfg == s.cfg
  {
    hide Do;
    OnlySetAndClearWrite(s, step);
  }

  /** Over any run of connects, live switches, recoveries and disconnects in which no registry
      write fails, the registry seen whenever no snapshot is held is the one before the first
      connect or that one after a single cycle; while a snapshot is held it is ours. */
  lemma RunsRestoreTheRegistry(s: Sys, steps: seq<Step>)
    requires Settled(s) && s.proxy.saved.None? && !s.hist.regFault
    ensures var r := Exec(s, steps);
            !r.hist.regFault ==>
              if r.proxy.saved.Some? then r.proxy.reg == RS.Own(s.cfg.hp, s.cfg.bypass)
              else r.proxy.reg == s.proxy.reg
                   || r.proxy.reg == RS.AfterCycle(s.proxy.reg, s.cfg.hp, s.cfg.bypass)
  {
    RegistryRun(s.proxy.reg, s, steps);
  }

  // ---------- Crashes ----------

  lemma EndKeepsClean(s: Sys, op: Op, ok: bool, io: Io)
    requires RS.Clean(s.proxy, s.cfg.hp)
    ensures RS.Clean(End(s, op, ok, io).proxy, s.cfg.hp) && End(s, op, ok, io).cfg == s.cfg
  {
    hide R.RestoreOutcome, R.EnsureOutcome, RS.Clean, Parsed;
    RS.OutcomesKeepClean(s.proxy, s.cfg.hp, s.cfg.bypass, io.budget, io.backupOk);
  }

  lemma AbortKeepsClean(s: Sys, op: Op, node: string, io: Io)
    requires op.Connect? && RS.Clean(s.proxy, s.cfg.hp)
    ensures RS.Clean(Abort(s, op, node, io).proxy, s.cfg.hp) && Abort(s, op, node, io).cfg == s.cfg
  {
    hide End, RS.Clean, Parsed;
    EndKeepsClean(Persist(Write(s, Error), io, Error, node, Parsed(op.req.mode)).(active := None), op, false, io);
  }

  lemma DialKeepsClean(s: Sys, op: Op, live: bool, io: Io)
    requires op.Connect? && RS.Clean(s.proxy, s.cfg.hp)
    ensures RS.Clean(Dial(s, op, live, io).proxy, s.cfg.hp) && Dial(s, op, live, io).cfg == s.cfg
  {
    hide End, Abort, RS.Clean, Parsed;
    EndKeepsClean(s.(hist := s.hist.(modeFault := true)), op, false, io);
    AbortKeepsClean(s.(hist := s.hist.(switchAborted := s.hist.switchAborted || live)), op, "", io);
  }

  lemma EnterKeepsClean(s: Sys, op: Op, io: Io)
    requires op.Connect? && RS.Clean(s.proxy, s.cfg.hp)
    ensures RS.Clean(Enter(s, op, io).proxy, s.cfg.hp) && Enter(s, op, io).cfg == s.cfg
  {
    hide End, Dial, RS.Clean, Parsed;
    EndKeepsClean(s, op, false, io);
    DialKeepsClean(Transition(s, Starting), op, false, io);
  }

  lemma StartupKeepsClean(s: Sys, io: Io)
    requires RS.Clean(s.proxy, s.cfg.hp)
    ensures RS.Clean(Startup(s, io).proxy, s.cfg.hp) && Startup(s, io).cfg == s.cfg
  {
    hide Enter, RS.Clean, R.RestoreOutcome, R.Run;
    RS.OutcomesKeepClean(s.proxy, s.cfg.hp, s.cfg.bypass, io.budget, io.backupOk);
    var r := s.(core := if io.reaped then s.core.(live := {}) else s.core,
                stale := if io.reaped then {} else s.stale);
    EnterKeepsClean(r.(proxy := R.Run(r.proxy, R.Prime, r.cfg.hp, r.cfg.bypass)),
                    Connect(Request(r.record.node, Named(r.record.mode)), true), io);
  }

  lemma CleanedKeepsClean(s: Sys, io: Io)
    requires s.holder.CleanCore? && RS.Clean(s.proxy, s.cfg.hp)
    ensures RS.Clean(Cleaned(s, io).proxy, s.cfg.hp) && Cleaned(s, io).cfg == s.cfg
  {
    hide Abort, RS.Clean, K.Stop, CtxMode;
    if s.holder.op.Connect? {
      AbortKeepsClean(s.(core := K.Stop(s.core), session := None), s.holder.op, s.holder.node, io);
    }
  }

  lemma CoreStoppedKeepsClean(s: Sys, io: Io)
    requires s.holder.StopCore? && s.holder.op.Connect? && RS.Clean(s.proxy, s.cfg.hp)
    ensures RS.Clean(CoreStopped(s, io).proxy, s.cfg.hp) && CoreStopped(s, io).cfg == s.cfg
  {
    hide Dial, RS.Clean, K.Stop;
    DialKeepsClean(Transition(s.(core := K.Stop(s.core), session := None, active := None), Starting),
                   s.holder.op, true, io);
  }

  lemma HolderKeepsClean(s: Sys, io: Io)
    requires HolderEnabled(s) && RS.Clean(s.proxy, s.cfg.hp)
    ensures RS.Clean(HolderMoves(s, io).proxy, s.cfg.hp) && HolderMoves(s, io).cfg == s.cfg
  {
    hide End, CoreStopped, Startup, Cleaned, RS.Clean, Parsed, K.BeginStart, K.FinishStart, R.SetOutcome,
         R.SetSucceeds, R.ClearOutcome, R.ClearSucceeds;
    RS.OutcomesKeepClean(s.proxy, s.cfg.hp, s.cfg.bypass, io.budget, io.backupOk);
    match s.holder
    case Reap => StartupKeepsClean(s, io);
    case StopCore(_) => CoreStoppedKeepsClean(s, io);
    case CleanCore(_, _) => CleanedKeepsClean(s, io);
    case Register(op, id) => EndKeepsClean(s.(slot := Some(id)), op, true, io);
    case _ =>
  }

  lemma StepKeepsClean(s: Sys, step: Step)
    requires RS.Clean(s.proxy, s.cfg.hp)
    ensures RS.Clean(Do(s, step).proxy, s.cfg.hp) && Do(s, step).cfg == s.cfg
  {
    hide Enter, HolderMoves, TaskMoves, RS.Clean, R.ClearOutcome, R.ClearSucceeds;
    match step
    case BeginConnect(req, io) => EnterKeepsClean(s, Connect(req, false), io);
    case HolderStep(io) =>
      if HolderEnabled(s) {
        HolderKeepsClean(s, io);
      }
    case TaskStep(id, io) =>
      if id in s.tasks {
        if s.tasks[id].pc.GiveUpProxy? {
          GiveUpProxyStep(s, id, io);
          RS.OutcomesKeepClean(s.proxy, s.cfg.hp, s.cfg.bypass, io.budget, io.backupOk);
        } else {
          TaskIsQuiet(s, id, io);
        }
      }
    case _ =>
  }

  /** Over every run, startup and failed writes included, neither the snapshot nor the backup ever
      holds our own endpoint as an enabled proxy; so the next instance starts clean again. */
  lemma {:induction false} RunsStayClean(s: Sys, steps: seq<Step>)
    requires RS.Clean(s.proxy, s.cfg.hp)
    ensures RS.Clean(Exec(s, steps).proxy, s.cfg.hp)
    ensures RS.Clean(Boot(s.cfg, Crash(Exec(s, steps))).proxy, s.cfg.hp)
    decreases steps
  {
    hide Do;
    if steps != [] {
      StepKeepsClean(s, steps[0]);
      RunsStayClean(Do(s, steps[0]), steps[1..]);
    }
  }

  predicate Reconnects(s: Sys, io: Io) {
    s.record.node != "" && s.record.lastState == Connected && s.cfg.restore && io.lookup == Enabled
  }

  /** The record on disk asks for the connection that is up: same node, same mode. */
  predicate SameTarget(s: Sys) {
    s.active == Some(s.record.node) && s.ctxMode == Some(s.record.mode)
  }

  /** The startup reconnects, and its connect is not refused at once: it dials, or switches to another target. */
  predicate GoesAhead(s: Sys, io: Io) {
    && Reconnects(s, io)
    && match s.conn
       case Connected => !SameTarget(s)
       case Stopped | Ready | Error => io.modeSaved
       case _ => false
  }

  predicate Remembered(s: Sys, r: Sys, io: Io) {
    r.record == if io.persisted then Record(Stopped, "", s.record.mode) else s.record
  }

  /** What a reconnecting startup hands to its connect. */
  function Handed(s: Sys, io: Io): Sys {
    s.(core := if io.reaped then s.core.(live := {}) else s.core, stale := if io.reaped then {} else s.stale,
       proxy := R.Run(s.proxy, R.Prime, s.cfg.hp, s.cfg.bypass))
  }

  lemma StartupHandsOver(s: Sys, io: Io)
    requires s.holder.Reap? && Reconnects(s, io)
    ensures Do(s, HolderStep(io)) == Enter(Handed(s, io), Connect(Request(s.record.node, Named(s.record.mode)), true), io)
  {
    hide R.Run, Enter;
  }

  lemma EnterGoesAhead(s: Sys, req: Request, io: Io)
    requires io.lookup == Enabled
    requires match s.conn
             case Connected => !(s.active == Some(req.node) && s.ctxMode.Some? && req.mode == Named(s.ctxMode.value))
             case Stopped | Ready | Error => io.modeSaved
             case _ => false
    ensures var r := Enter(s, Connect(req, true), io);
            && r.proxy == s.proxy && r.cfg == s.cfg && !r.holder.Free?
            && (r.conn == State.Stopping || r.conn == Connecting)
  {
    hide R.RestoreOutcome, Parsed, Abort, End;
  }

  lemma StartupGoesAhead(s: Sys, io: Io)
    requires s.holder.Reap? && GoesAhead(s, io)
    ensures var r := Do(s, HolderStep(io));
            && r.proxy == R.Run(s.proxy, R.Prime, s.cfg.hp, s.cfg.bypass) && r.cfg == s.cfg
            && (r.conn == State.Stopping || r.conn == Connecting) && !r.holder.Free?
  {
    hide R.Run, Enter, Do;
    StartupHandsOver(s, io);
    EnterGoesAhead(Handed(s, io), Request(s.record.node, Named(s.record.mode)), io);
  }

  /** A boot-time connect that is refused, or cannot save the mode. */
  lemma EnterIsRefused(s: Sys, req: Request, io: Io)
    requires s.holder.Reap? && io.lookup == Enabled
    requires match s.conn
             case Connected => s.active == Some(req.node) && s.ctxMode.Some? && req.mode == Named(s.ctxMode.value)
             case Stopped | Ready | Error => !io.modeSaved
             case _ => true
    ensures var r := Enter(s, Connect(req, true), io);
            && r.proxy == R.RestoreOutcome(s.proxy, s.cfg.hp, io.budget) && r.cfg == s.cfg && r.holder.Free?
            && r.record == (if io.persisted then Record(Stopped, "", Parsed(req.mode)) else s.record)
            && (s.conn == Connected || s.conn == Reconnecting ==> r.conn == s.conn)
  {
    hide R.RestoreOutcome, TakeMonitor, Abort, Parsed, SetContext;
  }

  lemma StartupIsRefused(s: Sys, io: Io)
    requires s.holder.Reap? && Reconnects(s, io) && !GoesAhead(s, io)
    ensures var r := Do(s, HolderStep(io));
            var primed := R.Run(s.proxy, R.Prime, s.cfg.hp, s.cfg.bypass);
            && r.proxy == R.RestoreOutcome(primed, s.cfg.hp, io.budget) && r.cfg == s.cfg
            && r.holder.Free? && Remembered(s, r, io) && (s.conn == Connected || s.conn == Reconnecting ==> r.conn == s.conn)
  {
    hide R.Run, R.RestoreOutcome, Enter, Do;
    StartupHandsOver(s, io);
    EnterIsRefused(Handed(s, io), Request(s.record.node, Named(s.record.mode)), io);
  }

  lemma StartupOnlyRestores(s: Sys, io: Io)
    requires s.holder.Reap? && !Reconnects(s, io)
    ensures var r := Do(s, HolderStep(io));
            && r.cfg == s.cfg && r.holder.Free? && r.conn == s.conn
            && (if s.record.node == "" then r.proxy == s.proxy
                else r.proxy == R.RestoreOutcome(s.proxy, s.cfg.hp, io.budget) && Remembered(s, r, io))
  {
    hide R.Run, R.RestoreOutcome, Enter;
  }

  lemma PrimedLeavesAlike(p: R.Proxy, hp: string, bypass: string, budget: nat)
    requires RS.Clean(p, hp)
    ensures var q := R.Run(p, R.Prime, hp, bypass);
            RS.Clean(q, hp) && q.reg == p.reg && (RS.LeavesDeadProxy(q, hp, budget) <==> RS.LeavesDeadProxy(p, hp, budget))
  {
    RS.PrimeResult(p, hp, bypass);
    hide R.Run, R.Dangling, R.References;
  }

  /** Every startup, whatever state it finds when the stale cores are gone: it leaves a dead proxy exactly when there
      was one and the record on disk names no node or its connect goes ahead, or when the failing registry writes
      of the crash recovery leave one. */
  lemma StartupClearsDeadProxy(s: Sys, io: Io)
    requires s.holder.Reap? && RS.Clean(s.proxy, s.cfg.hp)
    ensures R.Dangling(Do(s, HolderStep(io)).proxy.reg, s.cfg.hp) <==>
            if s.record.node == "" || GoesAhead(s, io) then R.Dangling(s.proxy.reg, s.cfg.hp)
            else RS.LeavesDeadProxy(s.proxy, s.cfg.hp, io.budget)
  {
    hide Do, R.Dangling, R.RestoreOutcome, R.Run, RS.LeavesDeadProxy, RS.Clean, GoesAhead;
    PrimedLeavesAlike(s.proxy, s.cfg.hp, s.cfg.bypass, io.budget);
    RS.RecoveryLeavesDeadProxy(s.proxy, s.cfg.hp, io.budget);
    RS.RecoveryLeavesDeadProxy(R.Run(s.proxy, R.Prime, s.cfg.hp, s.cfg.bypass), s.cfg.hp, io.budget);
    if GoesAhead(s, io) {
      StartupGoesAhead(s, io);
      assert s.record.node != "" by { AheadNamesNode(s, io); }
    } else if Reconnects(s, io) {
      StartupIsRefused(s, io);
    } else {
      StartupOnlyRestores(s, io);
    }
  }

  lemma AheadNamesNode(s: Sys, io: Io)
    requires GoesAhead(s, io)
    ensures s.record.node != "" && Reconnects(s, io)
  {
  }

  /** A boot-time connect that has gone ahead and fails later ends in the same crash recovery. */
  lemma FailedBootConnectLeavesDeadProxy(s: Sys, io: Io)
    requires HolderEnabled(s) && !s.holder.Reap? && s.holder.op.Connect? && s.holder.op.boot
    requires RS.Clean(s.proxy, s.cfg.hp) && Do(s, HolderStep(io)).holder.Free?
    ensures var r := Do(s, HolderStep(io));
            if s.holder.Register? then r.proxy == R.EnsureOutcome(s.proxy, s.cfg.hp, s.cfg.bypass, io.budget)
            else R.Dangling(r.proxy.reg, s.cfg.hp) <==> RS.LeavesDeadProxy(s.proxy, s.cfg.hp, io.budget)
  {
    assert Do(s, HolderStep(io)).proxy == if s.holder.Register? then R.EnsureOutcome(s.proxy, s.cfg.hp, s.cfg.bypass, io.budget)
                                          else R.RestoreOutcome(s.proxy, s.cfg.hp, io.budget) by {
      BootConnectEnds(s, io);
    }
    RS.RecoveryLeavesDeadProxy(s.proxy, s.cfg.hp, io.budget);
    hide Do, R.Dangling, R.RestoreOutcome, RS.LeavesDeadProxy;
  }

  lemma BootConnectEnds(s: Sys, io: Io)
    requires HolderEnabled(s) && !s.holder.Reap? && s.holder.op.Connect? && s.holder.op.boot
    requires Do(s, HolderStep(io)).holder.Free?
    ensures Do(s, HolderStep(io)).proxy ==
            if s.holder.Register? then R.EnsureOutcome(s.proxy, s.cfg.hp, s.cfg.bypass, io.budget)
            else R.RestoreOutcome(s.proxy, s.cfg.hp, io.budget)
  {
    hide R.RestoreOutcome, R.EnsureOutcome, R.SetOutcome, R.ClearOutcome, R.SetSucceeds, R.ClearSucceeds, Parsed, SetContext, K.Stop;
  }
}
