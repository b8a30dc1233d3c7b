/** The inductive invariant of the connection protocol: who may run, in which state, holding
    which resources, at every await point of every interleaving. */
module LifecycleInvariant {
  import opened Prelude
  import opened ConnState
  import opened Lifecycle
  import R = Route
  import RS = RouteSafety
  import K = Core

  /** The only task that can be alive. */
  function Registered(s: Sys): Option<nat> {
    match s.holder
    case Register(_, id) => Some(id)
    case WaitMonitor(_, awaited) => awaited
    case _ => s.slot
  }

  predicate Alive(s: Sys) {
    Registered(s).Some? && Registered(s).value in s.tasks
  }

  function Current(s: Sys): Pc
    requires Alive(s)
  {
    s.tasks[Registered(s).value].pc
  }

  predicate Recovering(pc: Pc) {
    !pc.Tick? && !pc.Checking?
  }

  ghost predicate TasksOk(s: Sys) {
    && (forall id | id in s.tasks :: Registered(s) == Some(id))
    && (forall id | id in s.tasks :: s.tasks[id].cancelled <==> s.holder.WaitMonitor?)
    && (Registered(s).Some? ==> Registered(s).value < s.nextTask)
    && (s.slot.Some? ==> s.slot.value < s.nextTask)
    && (s.holder.WaitMonitor? ==> s.slot.None?)
  }

  ghost predicate CoreOk(s: Sys) {
    && s.core.live <= K.Held(s.core) + s.stale
    && (forall p | p in K.Held(s.core) + s.stale :: p < s.core.nextPid)
    && (s.core.status == K.Running <==> s.core.child.Some?)
  }

  predicate NoTask(s: Sys) {
    !Alive(s)
  }

  /** No core, no session, no active node. */
  predicate Idle(s: Sys) {
    s.core.child.None? && s.core.spawning.None? && s.session.None? && s.active.None?
  }

  /** Everything a live connection needs. */
  predicate Live(s: Sys) {
    && s.core.child.Some? && s.core.spawning.None? && s.session.Some? && s.active.Some?
    && s.proxy.saved.Some? && s.restarts == 0
  }

  /** What a recovery holds at each of its await points. */
  predicate RecoveryOk(s: Sys, pc: Pc)
    requires Recovering(pc)
  {
    && s.restarts == 1 && s.active == Some(pc.prev) && s.session.Some?
    && (if pc.GiveUpCore? then s.hist.regFault || (s.proxy.saved.None? && s.proxy.backup.None?)
        else s.proxy.saved.Some?)
    && (s.core.spawning.Some? <==> pc.RecWait?)
    && match pc
       case Selecting(_) => s.core.child.Some? && s.cfg.restartMax == 0
       case RecStop(prev, target) => s.core.child.Some? && (target == prev <==> s.cfg.restartMax > 0)
       case RecStart(prev, target) => s.core.child.None? && (target == prev <==> s.cfg.restartMax > 0)
       case RecWait(prev, target) => s.core.child.None? && (target == prev <==> s.cfg.restartMax > 0)
       case RecCheck(prev, target) => s.core.child.Some? && (target == prev <==> s.cfg.restartMax > 0)
       case _ => true
  }

  /** Between two guarded operations. */
  predicate Resting(s: Sys) {
    match s.conn
    case Stopped => NoTask(s) && Idle(s) && s.proxy.saved.None?
    case Error =>
      NoTask(s) && Idle(s) && (s.proxy.saved.Some? ==> s.hist.switchAborted || s.hist.regFault)
    case Starting => NoTask(s) && Idle(s) && s.hist.modeFault
    case Connected => Alive(s) && !Recovering(Current(s)) && Live(s)
    case Reconnecting => Alive(s) && Recovering(Current(s)) && RecoveryOk(s, Current(s))
    case _ => false
  }

  predicate Unwinding(s: Sys) {
    NoTask(s) && s.core.spawning.None?
  }

  predicate PhaseOk(s: Sys) {
    match s.holder
    case Free => Resting(s)
    case Reap => Resting(s)
    case Register(op, _) =>
      op.Connect? && Resting(s) && s.conn != Stopped && s.conn != Starting && s.slot != Registered(s)
      && (s.slot.Some? ==> s.slot.value !in s.tasks)
    case WaitMonitor(op, _) =>
      if op.Connect? then s.conn == State.Stopping && Live(s) && (Alive(s) ==> !Recovering(Current(s)))
      else if s.conn == Error then NoTask(s) && Idle(s)
      else s.conn == State.Stopping
           && if Alive(s) && Recovering(Current(s)) then RecoveryOk(s, Current(s)) else Live(s)
    case StopCore(op) => op.Connect? && s.conn == State.Stopping && NoTask(s) && Live(s)
    case StartCore(op, _) => op.Connect? && s.conn == Connecting && NoTask(s) && Idle(s)
    case WaitPort(op, _) =>
      op.Connect? && s.conn == Connecting && NoTask(s) && s.core.child.None? && s.core.spawning.Some?
      && s.session.None? && s.active.None?
    case SetProxy(op, _) =>
      op.Connect? && s.conn == Connecting && Unwinding(s) && s.core.child.Some?
      && s.session.None? && s.active.None?
    case ClearProxy(op, _) =>
      Unwinding(s) && if op.Connect? then s.conn == Connecting && s.session.None? && s.active.None?
                      else s.conn == State.Stopping || s.conn == Error
    case CleanCore(op, _) =>
      Unwinding(s) && s.proxy.saved.None?
      && if op.Connect? then s.conn == Connecting && s.active.None?
         else s.conn == State.Stopping || s.conn == Error
    case Probe(op, _) => op.Connect? && s.conn == Connected && NoTask(s) && Live(s)
  }

  ghost predicate Inv(s: Sys) {
    TasksOk(s) && CoreOk(s) && PhaseOk(s) && s.hist.legal && !s.hist.refused
  }

  lemma BootIsSound(cfg: Config, l: Leftover)
    requires SoundLeftover(l)
    ensures Inv(Boot(cfg, l))
    ensures var s := Boot(cfg, l); s.conn == Stopped && s.restarts == 0 && s.holder.Free? && s.tasks == map[]
  {
  }

  // ---------- The guard holder ----------

  lemma EndIsSound(s: Sys, op: Op, ok: bool, io: Io)
    requires TasksOk(s.(holder := Free)) && CoreOk(s) && Resting(s.(holder := Free))
    requires s.hist.legal && !s.hist.refused
    ensures Inv(End(s, op, ok, io))
  {
    hide R.RestoreOutcome, R.EnsureOutcome, R.Run, Parsed, Inv, Resting, TasksOk, CoreOk;
    RS.BootWritesKeepSnapshot(s.proxy, s.cfg.hp, s.cfg.bypass, io.budget);
    var restored := R.RestoreOutcome(s.proxy, s.cfg.hp, io.budget);
    ReleaseIsSound(s, s.proxy, s.record);
    ReleaseIsSound(s, R.EnsureOutcome(s.proxy, s.cfg.hp, s.cfg.bypass, io.budget), s.record);
    ReleaseIsSound(s, restored, s.record);
    if op.Connect? {
      ReleaseIsSound(s, restored, Record(Stopped, "", Parsed(op.req.mode)));
    }
  }

  /** At rest, the registry, the record, and dropping the backup make no difference. */
  lemma ReleaseIsSound(s: Sys, p: R.Proxy, record: Record)
    requires TasksOk(s.(holder := Free)) && CoreOk(s) && Resting(s.(holder := Free))
    requires s.hist.legal && !s.hist.refused
    requires p.saved == s.proxy.saved && (s.proxy.backup.None? ==> p.backup.None?)
    ensures Inv(s.(proxy := p, record := record, holder := Free))
  {
  }

  lemma AbortIsSound(s: Sys, op: Op, node: string, io: Io)
    requires op.Connect? && TasksOk(s.(holder := Free)) && CoreOk(s) && s.hist.legal && !s.hist.refused
    requires s.conn == Starting || s.conn == Connecting
    requires NoTask(s.(holder := Free)) && s.core.child.None? && s.core.spawning.None? && s.session.None?
    requires s.proxy.saved.Some? ==> s.hist.switchAborted || s.hist.regFault
    ensures Inv(Abort(s, op, node, io))
  {
    hide End, Inv, Parsed;
    EndIsSound(Persist(Write(s, Error), io, Error, node, Parsed(op.req.mode)).(active := None), op, false, io);
  }

  lemma DialIsSound(s: Sys, op: Op, live: bool, io: Io)
    requires op.Connect? && TasksOk(s.(holder := Free)) && CoreOk(s) && s.hist.legal && !s.hist.refused
    requires s.conn == Starting && NoTask(s.(holder := Free)) && Idle(s)
    requires s.proxy.saved.Some? && io.lookup != Enabled ==> live || s.hist.switchAborted || s.hist.regFault
    ensures Inv(Dial(s, op, live, io))
  {
    hide End, Abort, Parsed;
    if io.lookup != Enabled {
      AbortIsSound(s.(hist := s.hist.(switchAborted := s.hist.switchAborted || live)), op, "", io);
    } else if !io.modeSaved {
      EndIsSound(s.(hist := s.hist.(modeFault := true)), op, false, io);
    }
  }

  predicate SameTarget(s: Sys, op: Op)
    requires op.Connect?
  {
    s.active == Some(op.req.node) && s.ctxMode.Some? && op.req.mode == Named(s.ctxMode.value)
  }

  lemma TakeMonitorIsSound(s: Sys, op: Op)
    requires (s.holder.Free? || s.holder.Reap?) && Inv(s)
    requires if op.Connect? then s.conn == Connected
             else s.conn == Connected || s.conn == Reconnecting || s.conn == Error
    ensures s.conn != Error ==> Inv(TakeMonitor(Transition(s, State.Stopping), op))
    ensures s.conn == Error ==> Inv(TakeMonitor(s, op))
  {
  }

  /** Inside or outside the guard, a system between operations is at rest. */
  lemma AtRest(s: Sys)
    requires (s.holder.Free? || s.holder.Reap?) && Inv(s)
    ensures var r := s.(holder := Free); TasksOk(r) && CoreOk(s) && Resting(r)
    ensures s.hist.legal && !s.hist.refused
    ensures s.conn == Stopped || s.conn == Error ==>
              NoTask(s.(holder := Free)) && Idle(s) && (s.proxy.saved.Some? ==> s.hist.switchAborted || s.hist.regFault)
    ensures s.conn != Connecting && s.conn != State.Stopping
  {
  }

  lemma EnterIsSound(s: Sys, op: Op, io: Io)
    requires op.Connect? && (s.holder.Free? || s.holder.Reap?) && Inv(s)
    ensures Inv(Enter(s, op, io))
  {
    hide End, Dial, TakeMonitor, Inv, TasksOk, CoreOk, Resting;
    AtRest(s);
    if s.conn == Connected && !SameTarget(s, op) {
      TakeMonitorIsSound(s, op);
    } else if s.conn == Stopped || s.conn == Error {
      var r := Transition(s, Starting);
      StartingIsQuiet(s, r);
      DialIsSound(r, op, false, io);
    } else {
      EndIsSound(s, op, false, io);
    }
  }

  lemma StartingIsQuiet(s: Sys, r: Sys)
    requires r == s.(conn := Starting) && TasksOk(s.(holder := Free)) && CoreOk(s)
    ensures TasksOk(r.(holder := Free)) && CoreOk(r)
  {
  }

  /** Priming adds a snapshot to a resting system, which the connect that follows keeps. */
  lemma EnterPrimedIsSound(s: Sys, saved: Option<R.Saved>, op: Op, io: Io)
    requires op.Connect? && s.holder.Reap? && Inv(s) && io.lookup == Enabled
    requires saved == (if s.proxy.backup.Some? then s.proxy.backup else s.proxy.saved)
    ensures Inv(Enter(s.(proxy := s.proxy.(saved := saved)), op, io))
  {
    hide End, Dial, TakeMonitor;
    var r := s.(proxy := s.proxy.(saved := saved));
    if s.conn == Stopped || s.conn == Error {
      DialIsSound(Transition(r, Starting), op, false, io);
    } else {
      assert Inv(r);
      EnterIsSound(r, op, io);
    }
  }

  lemma StartupIsSound(s: Sys, io: Io)
    requires Inv(s) && s.holder.Reap?
    ensures Inv(Startup(s, io))
  {
    hide Enter, R.Run, R.RestoreOutcome, R.EnsureOutcome, RestoreAtBoot;
    var r := s.(core := if io.reaped then s.core.(live := {}) else s.core,
                stale := if io.reaped then {} else s.stale);
    assert Inv(r);
    if r.record.node != "" {
      if r.record.lastState == Connected && r.cfg.restore && io.lookup == Enabled {
        RS.PrimeResult(r.proxy, r.cfg.hp, r.cfg.bypass);
        EnterPrimedIsSound(r, R.Run(r.proxy, R.Prime, r.cfg.hp, r.cfg.bypass).saved,
                           Connect(Request(r.record.node, Named(r.record.mode)), true), io);
        assert r.(proxy := R.Run(r.proxy, R.Prime, r.cfg.hp, r.cfg.bypass))
            == r.(proxy := r.proxy.(saved := R.Run(r.proxy, R.Prime, r.cfg.hp, r.cfg.bypass).saved));
      } else {
        RestoreAtBootIsSound(r, r.record.mode, io);
      }
    }
  }

  lemma RestoreAtBootIsSound(s: Sys, mode: Mode, io: Io)
    requires Inv(s) && s.holder.Reap?
    ensures Inv(RestoreAtBoot(s, mode, io))
  {
    hide R.RestoreOutcome, R.EnsureOutcome, R.Run;
    RS.BootWritesKeepSnapshot(s.proxy, s.cfg.hp, s.cfg.bypass, io.budget);
  }

  lemma MonitorGoneIsSound(s: Sys)
    requires Inv(s) && s.holder.WaitMonitor? && HolderEnabled(s)
    ensures Inv(MonitorGone(s))
  {
  }

  lemma CoreStoppedIsSound(s: Sys, io: Io)
    requires Inv(s) && s.holder.StopCore?
    ensures Inv(CoreStopped(s, io))
  {
    hide Dial;
    var r := s.(core := K.Stop(s.core), session := None, active := None);
    assert TasksOk(r.(holder := Free)) && NoTask(r.(holder := Free)) && CoreOk(r);
    DialIsSound(Transition(r, Starting), s.holder.op, true, io);
  }

  lemma CoreSpawnedIsSound(s: Sys, io: Io)
    requires Inv(s) && s.holder.StartCore?
    ensures Inv(CoreSpawned(s, io))
  {
  }

  lemma PortAnsweredIsSound(s: Sys, io: Io)
    requires Inv(s) && s.holder.WaitPort?
    ensures Inv(PortAnswered(s, io))
  {
  }

  lemma ProxySetIsSound(s: Sys, io: Io)
    requires Inv(s) && s.holder.SetProxy?
    ensures Inv(ProxySet(s, io))
  {
    hide R.SetOutcome, R.SetSucceeds, R.Run, Parsed, Inv, TasksOk, CoreOk, Live;
    OnlyConnectSetsProxy(s);
    RS.SetKeepsSnapshot(s.proxy, s.cfg.hp, s.cfg.bypass, io.budget, io.backupOk);
    var p := R.SetOutcome(s.proxy, s.cfg.hp, s.cfg.bypass, io.budget, io.backupOk);
    if R.SetSucceeds(s.proxy, io.budget) {
      var mode := Parsed(s.holder.op.req.mode);
      NowConnectedIsSound(s, p, mode, s.record);
      NowConnectedIsSound(s, p, mode, Record(Connected, s.holder.node, mode));
    } else {
      ProxyNotSetIsSound(s, p);
    }
  }

  lemma OnlyConnectSetsProxy(s: Sys)
    requires Inv(s) && s.holder.SetProxy?
    ensures s.holder.op.Connect?
  {
  }

  lemma NowConnectedIsSound(s: Sys, p: R.Proxy, mode: Mode, record: Record)
    requires Inv(s) && s.holder.SetProxy? && s.holder.op.Connect? && p.saved.Some?
    ensures var op, node := s.holder.op, s.holder.node;
            var r := SetContext(s.(proxy := p, session := Some(node), active := Some(node), restarts := 0), Connected, mode);
            Inv(r.(record := record, holder := Probe(op, node)))
  {
  }

  lemma ProxyNotSetIsSound(s: Sys, p: R.Proxy)
    requires Inv(s) && s.holder.SetProxy? && p.saved.None?
    ensures Inv(s.(proxy := p, hist := s.hist.(regFault := true), holder := ClearProxy(s.holder.op, s.holder.node)))
  {
  }

  lemma ProxyClearedIsSound(s: Sys, io: Io)
    requires Inv(s) && s.holder.ClearProxy?
    ensures Inv(ProxyCleared(s, io).(holder := CleanCore(s.holder.op, s.holder.node)))
  {
    hide R.ClearOutcome, R.ClearSucceeds;
    RS.ClearDropsSnapshot(s.proxy, io.budget);
  }

  lemma CleanedIsSound(s: Sys, io: Io)
    requires Inv(s) && s.holder.CleanCore?
    ensures Inv(Cleaned(s, io))
  {
    hide Abort;
    var r := s.(core := K.Stop(s.core), session := None);
    if s.holder.op.Connect? {
      assert TasksOk(r.(holder := Free)) && NoTask(r.(holder := Free)) && CoreOk(r);
      AbortIsSound(r, s.holder.op, s.holder.node, io);
    }
  }

  lemma MonitorSpawnedIsSound(s: Sys)
    requires Inv(s) && s.holder.Probe?
    ensures Inv(MonitorSpawned(s))
  {
  }

  lemma RegisteredIsSound(s: Sys, io: Io)
    requires Inv(s) && s.holder.Register?
    ensures Inv(End(s.(slot := Some(s.holder.id)), s.holder.op, true, io))
  {
    hide End;
    EndIsSound(s.(slot := Some(s.holder.id)), s.holder.op, true, io);
  }

  lemma HolderIsSound(s: Sys, io: Io)
    requires Inv(s) && HolderEnabled(s)
    ensures Inv(HolderMoves(s, io))
  {
    hide Inv, Startup, MonitorGone, CoreStopped, CoreSpawned, PortAnswered, ProxySet, ProxyCleared,
         Cleaned, MonitorSpawned, End;
    match s.holder
    case Reap => StartupIsSound(s, io);
    case WaitMonitor(_, _) => MonitorGoneIsSound(s);
    case StopCore(_) => CoreStoppedIsSound(s, io);
    case StartCore(_, _) => CoreSpawnedIsSound(s, io);
    case WaitPort(_, _) => PortAnsweredIsSound(s, io);
    case SetProxy(_, _) => ProxySetIsSound(s, io);
    case ClearProxy(_, _) => ProxyClearedIsSound(s, io);
    case CleanCore(_, _) => CleanedIsSound(s, io);
    case Probe(_, _) => MonitorSpawnedIsSound(s);
    case Register(_, _) => RegisteredIsSound(s, io);
  }

  // ---------- The supervisor ----------

  /** The phase of a supervisor that recovers, and of one that ticks. */
  predicate RecoverPhase(s: Sys, pc: Pc)
    requires Recovering(pc)
  {
    && RecoveryOk(s, pc)
    && if s.holder.WaitMonitor? then s.conn == State.Stopping && s.holder.op.Disconnect?
       else s.conn == Reconnecting
  }

  predicate TickPhase(s: Sys) {
    Live(s) && s.conn == if s.holder.WaitMonitor? then State.Stopping else Connected
  }

  predicate Supervised(s: Sys) {
    s.holder.Free? || s.holder.Reap? || s.holder.Register? || s.holder.WaitMonitor?
  }

  /** What a step of a supervisor leaves alone. */
  predicate SameMonitor(s: Sys, r: Sys) {
    && r.holder == s.holder && r.slot == s.slot && r.tasks == s.tasks && r.nextTask == s.nextTask
    && r.hist.legal && !r.hist.refused
  }

  lemma AliveMeans(s: Sys, id: nat)
    requires Inv(s) && id in s.tasks
    ensures Supervised(s) && Registered(s) == Some(id) && CoreOk(s)
    ensures var pc := s.tasks[id].pc;
            if Recovering(pc) then RecoverPhase(s, pc) else TickPhase(s)
  {
  }

  lemma GotoIsSound(s: Sys, r: Sys, id: nat, pc: Pc)
    requires Inv(s) && id in s.tasks && SameMonitor(s, r) && CoreOk(r)
    requires if Recovering(pc) then RecoverPhase(r, pc) else TickPhase(r)
    ensures Inv(Goto(r, id, pc))
  {
    GotoKeepsTasks(s, r, id, pc);
    hide TasksOk, CoreOk;
    AliveMeans(s, id);
    assert PhaseOk(Goto(r, id, pc));
    hide PhaseOk;
  }

  lemma GotoKeepsTasks(s: Sys, r: Sys, id: nat, pc: Pc)
    requires TasksOk(s) && id in s.tasks && SameMonitor(s, r)
    ensures TasksOk(Goto(r, id, pc)) && (CoreOk(r) ==> CoreOk(Goto(r, id, pc)))
    ensures Registered(Goto(r, id, pc)) == Some(id) && Alive(Goto(r, id, pc)) && Current(Goto(r, id, pc)) == pc
  {
  }

  lemma FinishIsSound(s: Sys, r: Sys, id: nat)
    requires Inv(s) && id in s.tasks && SameMonitor(s, r) && CoreOk(r)
    requires if r.conn == Error
             then Idle(r) && (r.proxy.saved.Some? ==> r.hist.regFault)
                  && (s.holder.WaitMonitor? ==> s.holder.op.Disconnect?)
             else r.conn == State.Stopping && s.holder.WaitMonitor? && Live(r)
    ensures Inv(Finish(r, id))
  {
    AliveMeans(s, id);
  }

  lemma BeginRecoverIsSound(s: Sys, id: nat, io: Io)
    requires Inv(s) && id in s.tasks && s.tasks[id].pc.Checking?
    ensures Inv(BeginRecover(s, id, io))
  {
    hide Inv, Goto, Finish;
    AliveMeans(s, id);
    if s.conn == Connected {
      var node := s.active.value;
      var r := Write(s, Reconnecting).(restarts := s.restarts + 1);
      assert SameMonitor(s, r) by { InvHistory(s); }
      var pc := if r.restarts <= r.cfg.restartMax then RecStop(node, node)
                else if io.smart then Selecting(node) else GiveUpProxy(node);
      CoreHeld(s);
      GotoIsSound(s, r, id, pc);
    } else {
      InvHistory(s);
      FinishIsSound(s, s, id);
    }
  }

  lemma InvHistory(s: Sys)
    requires Inv(s)
    ensures s.hist.legal && !s.hist.refused
  {
  }

  lemma CoreHeld(s: Sys)
    requires CoreOk(s)
    ensures s.core.status == K.Running <==> s.core.child.Some?
  {
  }

  lemma TickIsSound(s: Sys, id: nat, io: Io)
    requires Inv(s) && id in s.tasks && (s.tasks[id].pc.Tick? || s.tasks[id].pc.Checking?)
    ensures Inv(TickMoves(s, id, io))
  {
    hide Inv, Goto, Finish, BeginRecover;
    AliveMeans(s, id);
    InvHistory(s);
    match s.tasks[id].pc
    case Tick(k) =>
      if (s.tasks[id].cancelled && !io.tick) || s.conn != Connected {
        Cancelled(s, id);
        FinishIsSound(s, s, id);
      } else {
        GotoIsSound(s, s, id, Checking(k));
      }
    case Checking(k) =>
      BeginRecoverIsSound(s, id, io);
      GotoIsSound(s, s, id, Tick(0));
      GotoIsSound(s, s, id, Tick(k + 1));
  }

  lemma Cancelled(s: Sys, id: nat)
    requires Inv(s) && id in s.tasks
    ensures s.tasks[id].cancelled <==> s.holder.WaitMonitor?
  {
  }

  lemma RecStopIsSound(s: Sys, id: nat, io: Io)
    requires Inv(s) && id in s.tasks && s.tasks[id].pc.RecStop?
    ensures Inv(CoreMoves(s, id, io))
  {
    hide Inv, Goto;
    AliveMeans(s, id);
    InvHistory(s);
    var pc := s.tasks[id].pc;
    GotoIsSound(s, s.(core := K.Stop(s.core)), id, RecStart(pc.prev, pc.target));
  }

  lemma RecStartIsSound(s: Sys, id: nat, io: Io)
    requires Inv(s) && id in s.tasks && s.tasks[id].pc.RecStart?
    ensures Inv(CoreMoves(s, id, io))
  {
    hide Inv, Goto;
    AliveMeans(s, id);
    InvHistory(s);
    var pc := s.tasks[id].pc;
    var c := K.BeginStart(s.core, io.spawn);
    GotoIsSound(s, s.(core := if c.Ok? then c.value else c.error), id,
                if c.Ok? then RecWait(pc.prev, pc.target) else GiveUpProxy(pc.prev));
  }

  lemma RecWaitIsSound(s: Sys, id: nat, io: Io)
    requires Inv(s) && id in s.tasks && s.tasks[id].pc.RecWait?
    ensures Inv(CoreMoves(s, id, io))
  {
    hide Inv, Goto;
    AliveMeans(s, id);
    InvHistory(s);
    var pc := s.tasks[id].pc;
    var c := K.FinishStart(s.core, io.wakeup);
    GotoIsSound(s, s.(core := if c.Ok? then c.value else c.error), id,
                if c.Ok? then RecCheck(pc.prev, pc.target) else GiveUpProxy(pc.prev));
  }

  lemma RecoveredIsLive(s: Sys, id: nat, io: Io)
    requires Inv(s) && id in s.tasks && s.tasks[id].pc.RecCheck?
    ensures var r := MarkRecovered(s, s.tasks[id].pc.target, io);
            && CoreOk(r) && SameMonitor(s, r) && Live(r)
            && (if r.conn == Connected then TickPhase(r) else r.conn == State.Stopping && s.holder.WaitMonitor?)
  {
    hide Inv;
    AliveMeans(s, id);
    InvHistory(s);
  }

  lemma RecoveredIsSound(s: Sys, id: nat, io: Io)
    requires Inv(s) && id in s.tasks && s.tasks[id].pc.RecCheck?
    ensures Inv(AfterRecover(MarkRecovered(s, s.tasks[id].pc.target, io), id))
  {
    hide Inv, Goto, Finish, MarkRecovered, CoreOk, Live;
    RecoveredIsLive(s, id, io);
    var r := MarkRecovered(s, s.tasks[id].pc.target, io);
    if r.conn == Connected {
      GotoIsSound(s, r, id, Tick(0));
    } else {
      FinishIsSound(s, r, id);
    }
  }

  lemma ProxyGivenUpIsSound(s: Sys, id: nat, io: Io)
    requires Inv(s) && id in s.tasks && s.tasks[id].pc.GiveUpProxy?
    ensures Inv(Goto(ProxyCleared(s, io), id, GiveUpCore(s.tasks[id].pc.prev)))
  {
    hide Inv, Goto, R.ClearOutcome, R.ClearSucceeds;
    AliveMeans(s, id);
    InvHistory(s);
    RS.ClearDropsSnapshot(s.proxy, io.budget);
    if R.ClearSucceeds(s.proxy, io.budget) {
      RS.ClearDropsBackup(s.proxy, io.budget);
    }
    GotoIsSound(s, ProxyCleared(s, io), id, GiveUpCore(s.tasks[id].pc.prev));
  }

  lemma GivenUpIsSound(s: Sys, id: nat, io: Io)
    requires Inv(s) && id in s.tasks && s.tasks[id].pc.GiveUpCore?
    ensures Inv(AfterRecover(GiveUp(s, s.tasks[id].pc.prev, io), id))
  {
    hide Inv, Finish, Goto;
    AliveMeans(s, id);
    InvHistory(s);
    var r := GiveUp(s, s.tasks[id].pc.prev, io);
    assert CoreOk(r) && SameMonitor(s, r) && Idle(r) && r.conn == Error;
    FinishIsSound(s, r, id);
  }

  lemma TaskIsSound(s: Sys, id: nat, io: Io)
    requires Inv(s) && id in s.tasks
    ensures Inv(TaskMoves(s, id, io))
  {
    hide Inv, Goto, TickMoves, CoreMoves, AfterRecover, MarkRecovered, ProxyCleared, GiveUp, RecoveryOk;
    var pc := s.tasks[id].pc;
    match pc
    case Tick(_) => TickIsSound(s, id, io);
    case Checking(_) => TickIsSound(s, id, io);
    case RecStop(_, _) => RecStopIsSound(s, id, io);
    case RecStart(_, _) => RecStartIsSound(s, id, io);
    case RecWait(_, _) => RecWaitIsSound(s, id, io);
    case GiveUpProxy(_) => ProxyGivenUpIsSound(s, id, io);
    case GiveUpCore(_) => GivenUpIsSound(s, id, io);
    case Selecting(_) => ChoiceIsSound(s, id, io);
    case RecCheck(_, _) =>
      RecoveredIsSound(s, id, io);
      ChoiceIsSound(s, id, io);
  }

  /** Leaving `Selecting`, or a failed check, for the next stage of the recovery. */
  lemma ChoiceIsSound(s: Sys, id: nat, io: Io)
    requires Inv(s) && id in s.tasks && (s.tasks[id].pc.Selecting? || s.tasks[id].pc.RecCheck?)
    ensures var pc := s.tasks[id].pc;
            && Inv(Goto(s, id, GiveUpProxy(pc.prev)))
            && (pc.Selecting? && io.pick.Some? && io.pick.value != pc.prev ==>
                  Inv(Goto(s, id, RecStop(pc.prev, io.pick.value))))
  {
    hide Inv, Goto;
    AliveMeans(s, id);
    InvHistory(s);
    var pc := s.tasks[id].pc;
    GotoIsSound(s, s, id, GiveUpProxy(pc.prev));
    if pc.Selecting? && io.pick.Some? && io.pick.value != pc.prev {
      GotoIsSound(s, s, id, RecStop(pc.prev, io.pick.value));
    }
  }

  lemma ReapIsSound(s: Sys)
    requires Inv(s) && s.holder.Free?
    ensures Inv(s.(holder := Reap, startupPending := false))
  {
  }

  lemma DeathIsSound(s: Sys, pid: nat)
    requires Inv(s)
    ensures Inv(s.(core := s.core.(live := s.core.live - {pid})))
  {
    DeathIsUnseen(s, pid);
    hide Resting, Idle, Live, RecoveryOk, NoTask;
  }

  /** Only the health checks notice that a process is gone. */
  lemma DeathIsUnseen(s: Sys, pid: nat)
    ensures var r := s.(core := s.core.(live := s.core.live - {pid}));
            && Resting(r) == Resting(s) && Idle(r) == Idle(s) && Live(r) == Live(s) && NoTask(r) == NoTask(s)
            && forall pc | Recovering(pc) :: RecoveryOk(r, pc) == RecoveryOk(s, pc)
  {
  }

  /** Every step of every actor keeps the invariant. */
  lemma StepIsSound(s: Sys, step: Step)
    requires Inv(s)
    ensures Inv(Do(s, step))
  {
    hide Enter, HolderMoves, TaskMoves, TakeMonitor, Inv;
    match step
    case BeginConnect(req, io) =>
      if s.holder.Free? {
        EnterIsSound(s, Connect(req, false), io);
      }
    case BeginDisconnect =>
      if s.holder.Free? && (s.conn == Connected || s.conn == Reconnecting || s.conn == Error) {
        TakeMonitorIsSound(s, Disconnect);
      }
    case BeginStartup =>
      if s.holder.Free? {
        ReapIsSound(s);
      }
    case HolderStep(io) =>
      if HolderEnabled(s) {
        HolderIsSound(s, io);
      }
    case TaskStep(id, io) =>
      if id in s.tasks {
        TaskIsSound(s, id, io);
      }
    case ProcessDies(pid) => DeathIsSound(s, pid);
  }

  lemma {:induction false} RunIsSound(s: Sys, steps: seq<Step>)
    requires Inv(s)
    ensures Inv(Exec(s, steps))
    decreases steps
  {
    hide Inv, Do;
    if steps != [] {
      StepIsSound(s, steps[0]);
      RunIsSound(Do(s, steps[0]), steps[1..]);
    }
  }
}
