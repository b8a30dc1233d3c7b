/** Runs of the connection protocol that end where its documentation says they cannot. */
module LifecycleScenarios {
  import opened Prelude
  import opened ConnState
  import opened Lifecycle
  import opened LifecycleInvariant
  import R = Route
  import RS = RouteSafety
  import K = Core
  import LR = LifecycleRegistry
  import LT = LifecycleTheorems

  /** The environment of a connect that works; `persisted` says whether the runtime record
      reaches the disk. */
  function Works(persisted: bool): Io {
    Io(Enabled, true, persisted, 4, true, K.Spawned, K.Up, true, true, None, false, true, true)
  }

  function StartWith(cfg: Config, reg: R.Registry, record: Record): Sys {
    Boot(cfg, Leftover(reg, None, record, {}, 0))
  }

  function FirstStart(cfg: Config, reg: R.Registry): Sys {
    StartWith(cfg, reg, Record(Stopped, "", Smart))
  }

  function DialSteps(req: Request, persisted: bool): seq<Step> {
    [BeginConnect(req, Works(persisted)), HolderStep(Works(persisted)), HolderStep(Works(persisted)),
     HolderStep(Works(persisted))]
  }

  lemma FourSteps(s: Sys, a: Step, b: Step, c: Step, d: Step)
    ensures Exec(s, [a, b, c, d]) == Do(Do(Do(Do(s, a), b), c), d)
  {
    hide Do;
    assert [a, b, c, d][1..] == [b, c, d] && [b, c, d][1..] == [c, d] && [c, d][1..] == [d] && [d][1..] == [];
    var s1 := Do(s, a);
    var s2 := Do(s1, b);
    assert Exec(s, [a, b, c, d]) == Exec(s1, [b, c, d]);
    assert Exec(s1, [b, c, d]) == Exec(s2, [c, d]);
    assert Exec(s2, [c, d]) == Exec(Do(s2, c), [d]);
    assert Exec(Do(s2, c), [d]) == Exec(Do(Do(s2, c), d), []);
  }

  predicate AtRest(s: Sys) {
    s.holder.Free? && s.conn == Stopped && s.core.child.None? && s.proxy.saved.None?
  }

  /** Nothing but the control point and the core differ. */
  predicate SameBooks(s: Sys, r: Sys) {
    r.proxy == s.proxy && r.record == s.record && r.cfg == s.cfg && r.startupPending == s.startupPending
    && r.slot == s.slot && r.nextTask == s.nextTask
  }

  lemma FirstDialStep(s: Sys, req: Request, persisted: bool)
    requires AtRest(s)
    ensures var r := Do(s, BeginConnect(req, Works(persisted)));
            && r.holder == StartCore(Connect(req, false), req.node) && r.conn == Connecting
            && r.core.child.None? && SameBooks(s, r)
  {
    hide Parsed;
  }

  lemma CoreComesUp(s: Sys, req: Request, persisted: bool)
    requires s.holder == StartCore(Connect(req, false), req.node) && s.core.child.None?
    ensures var io := Works(persisted);
            var r := Do(Do(s, HolderStep(io)), HolderStep(io));
            r.holder == SetProxy(Connect(req, false), req.node) && r.conn == s.conn && SameBooks(s, r)
  {
    var s2 := Do(s, HolderStep(Works(persisted)));
    assert s2.holder == WaitPort(Connect(req, false), req.node) && s2.core.spawning.Some?;
  }

  lemma DialReachesProxy(s: Sys, req: Request, persisted: bool)
    requires AtRest(s)
    ensures var io := Works(persisted);
            var r := Do(Do(Do(s, BeginConnect(req, io)), HolderStep(io)), HolderStep(io));
            r.holder == SetProxy(Connect(req, false), req.node) && r.conn == Connecting && SameBooks(s, r)
  {
    hide Do;
    FirstDialStep(s, req, persisted);
    CoreComesUp(Do(s, BeginConnect(req, Works(persisted))), req, persisted);
  }

  /** A connect from rest whose environment cooperates: core up, proxy ours, CONNECTED. */
  lemma DialConnects(s: Sys, req: Request, persisted: bool)
    requires AtRest(s)
    ensures var r := Exec(s, DialSteps(req, persisted));
            && r.conn == Connected && r.holder == Probe(Connect(req, false), req.node)
            && r.proxy.reg == RS.Own(s.cfg.hp, s.cfg.bypass)
            && r.proxy.saved == Some(R.Sanitize(R.Query(s.proxy.reg), s.cfg.hp))
            && r.proxy.backup == r.proxy.saved
            && r.record == (if persisted then Record(Connected, req.node, Parsed(req.mode)) else s.record)
            && r.active == Some(req.node) && r.ctxMode == Some(Parsed(req.mode)) && r.cfg == s.cfg && r.nextTask == s.nextTask
            && r.startupPending == s.startupPending && r.slot == s.slot
  {
    hide Parsed, R.SetOutcome, R.Run, R.Sanitize, Enter, Exec;
    var io := Works(persisted);
    FourSteps(s, BeginConnect(req, io), HolderStep(io), HolderStep(io), HolderStep(io));
    DialReachesProxy(s, req, persisted);
    LR.FaultlessSet(s.proxy, s.cfg.hp, s.cfg.bypass, 4, true);
    SetStoresBackup(s.proxy, s.cfg.hp, s.cfg.bypass);
    LastDialStep(Do(Do(Do(s, BeginConnect(req, io)), HolderStep(io)), HolderStep(io)), req, persisted);
  }

  lemma LastDialStep(s: Sys, req: Request, persisted: bool)
    requires s.holder == SetProxy(Connect(req, false), req.node) && s.conn == Connecting
    ensures var r := Do(s, HolderStep(Works(persisted)));
            && r.conn == Connected && r.holder == Probe(Connect(req, false), req.node)
            && r.proxy == R.SetOutcome(s.proxy, s.cfg.hp, s.cfg.bypass, 4, true)
            && r.record == (if persisted then Record(Connected, req.node, Parsed(req.mode)) else s.record)
            && r.active == Some(req.node) && r.ctxMode == Some(Parsed(req.mode)) && r.cfg == s.cfg && r.nextTask == s.nextTask
            && r.startupPending == s.startupPending && r.slot == s.slot
  {
    hide Parsed, R.SetOutcome, R.ApplyWrites;
    assert R.SetSucceeds(s.proxy, 4);
    hide R.SetSucceeds;
  }

  lemma SetStoresBackup(p: R.Proxy, hp: string, bypass: string)
    requires p.saved.None?
    ensures R.SetOutcome(p, hp, bypass, 4, true) == R.Run(p, R.Set, hp, bypass)
    ensures R.Run(p, R.Set, hp, bypass).backup == R.Run(p, R.Set, hp, bypass).saved
  {
    RS.SetResult(p, hp, bypass);
  }

  /** A disconnect in ERROR with its three waits answered. */
  function HangUp(io: Io, last: Io): seq<Step> {
    [BeginDisconnect, HolderStep(io), HolderStep(io), HolderStep(last)]
  }

  /** A disconnect in ERROR ends in STOPPED with no snapshot. A snapshot held so far is restored if all registry
      writes succeed; without one nothing is touched. A dead proxy is left exactly as the clear leaves one, so in the
      second case wherever there was one. */
  lemma DisconnectAfterError(s: Sys, io: Io, last: Io)
    requires LT.Reachable(s) && s.holder.Free? && s.conn == Error && RS.Clean(s.proxy, s.cfg.hp)
    ensures var r := Exec(s, HangUp(io, last));
            && r.holder.Free? && r.conn == Stopped && r.proxy.saved.None? && r.cfg == s.cfg
            && r.record == (if last.persisted then Record(Stopped, "", CtxMode(s)) else s.record)
            && (s.proxy.saved.None? ==> r.proxy == s.proxy)
            && (s.proxy.saved.Some? && R.ClearSucceeds(s.proxy, io.budget) ==>
                  r.proxy == R.Proxy(RS.Restored(s.proxy.reg, s.proxy.saved.value), None, None))
            && (R.Dangling(r.proxy.reg, s.cfg.hp) <==> RS.ClearLeavesDeadProxy(s.proxy, s.cfg.hp, io.budget))
  {
    hide Exec, R.Dangling, RS.ClearLeavesDeadProxy, RS.Clean, CtxMode;
    LT.ReachableIsSound(s);
    LT.SupervisorCount(s);
    FourSteps(s, BeginDisconnect, HolderStep(io), HolderStep(io), HolderStep(last));
    var s1 := Do(s, BeginDisconnect);
    assert s1.holder == WaitMonitor(Disconnect, s.slot) && s1.conn == Error && HolderEnabled(s1) && s1.proxy == s.proxy
           && s1.cfg == s.cfg && s1.record == s.record && CtxMode(s1) == CtxMode(s) by { HangUpBegins(s); }
    hide Inv, RS.Restored, Do, R.ClearOutcome, R.ClearSucceeds;
    HangUpSteps(s1, io, last);
    RS.ClearDropsSnapshot(s.proxy, io.budget);
    RS.ClearLeavesDeadProxyExactly(s.proxy, s.cfg.hp, io.budget);
    if s.proxy.saved.None? {
      LR.ClearOfNothing(s.proxy, io.budget);
    } else if R.ClearSucceeds(s.proxy, io.budget) {
      RS.ClearDropsBackup(s.proxy, io.budget);
    }
  }

  lemma HangUpBegins(s: Sys)
    requires s.holder.Free? && s.conn == Error && s.tasks == map[]
    ensures var r := Do(s, BeginDisconnect);
            && r.holder == WaitMonitor(Disconnect, s.slot) && r.conn == Error && HolderEnabled(r) && r.proxy == s.proxy
            && r.cfg == s.cfg && r.record == s.record && CtxMode(r) == CtxMode(s)
  {
  }

  lemma HangUpSteps(s: Sys, io: Io, last: Io)
    requires s.holder.WaitMonitor? && s.holder.op == Disconnect && HolderEnabled(s) && s.conn == Error
    ensures var r := Do(Do(Do(s, HolderStep(io)), HolderStep(io)), HolderStep(last));
            && r.holder.Free? && r.conn == Stopped && r.proxy == R.ClearOutcome(s.proxy, io.budget) && r.cfg == s.cfg
            && r.record == if last.persisted then Record(Stopped, "", CtxMode(s)) else s.record
  {
    hide R.ClearOutcome, R.ClearSucceeds, K.Stop;
    var s2 := Do(s, HolderStep(io));
    var s3 := Do(s2, HolderStep(io));
    assert s2.holder == ClearProxy(Disconnect, "") && s3.holder == CleanCore(Disconnect, "");
    assert s3.ctxMode == s.ctxMode && s3.conn == Error;
  }

  /** One more start of the service that gets no further than its startup task. */
  function Restart(cfg: Config, l: Leftover, io: Io): Leftover {
    Crash(Do(Do(Boot(cfg, l), BeginStartup), HolderStep(io)))
  }

  function Restarts(cfg: Config, l: Leftover, ios: seq<Io>): Leftover
    decreases |ios|
  {
    if ios == [] then l else Restarts(cfg, Restart(cfg, l, ios[0]), ios[1..])
  }

  /** With no node in the record, no number of starts touches the registry, the backup or the record. */
  lemma {:induction false} NoStartRepairs(cfg: Config, l: Leftover, ios: seq<Io>)
    requires l.record.node == ""
    ensures var r := Restarts(cfg, l, ios); r.reg == l.reg && r.backup == l.backup && r.record == l.record
    decreases |ios|
  {
    if ios != [] {
      NoStartRepairs(cfg, Restart(cfg, l, ios[0]), ios[1..]);
    }
  }

  /** A disconnect forgets the node in the record whether or not the proxy could be restored. Where the failing
      writes leave a dead proxy, no number of starts repairs it, although the backup is still on disk. */
  lemma CutDisconnectStrandsProxy(s: Sys, io: Io, last: Io, ios: seq<Io>)
    requires s.holder == ClearProxy(Disconnect, "") && RS.Clean(s.proxy, s.cfg.hp) && last.persisted
    ensures var r := Do(Do(s, HolderStep(io)), HolderStep(last));
            var left := Restarts(s.cfg, Crash(r), ios);
            && r.holder.Free?
            && (R.Dangling(left.reg, s.cfg.hp) <==> RS.ClearLeavesDeadProxy(s.proxy, s.cfg.hp, io.budget))
            && (s.proxy.saved.Some? ==> left.backup == if R.ClearSucceeds(s.proxy, io.budget) then None else s.proxy.backup)
  {
    hide R.ClearOutcome, R.ClearSucceeds, K.Stop, CtxMode, Restarts, R.Dangling, RS.ClearLeavesDeadProxy, RS.Clean;
    RS.ClearLeavesDeadProxyExactly(s.proxy, s.cfg.hp, io.budget);
    var s2 := Do(s, HolderStep(io));
    assert s2.holder == CleanCore(Disconnect, "") && s2.proxy == R.ClearOutcome(s.proxy, io.budget);
    var r := Do(s2, HolderStep(last));
    assert r.record.node == "" && r.proxy == s2.proxy;
    NoStartRepairs(s.cfg, Crash(r), ios);
  }

  /** The service dies on its first connect after the proxy is set but before the runtime record
      is written: the backup is on disk, yet no later start looks at it, and the machine stays
      pointed at a dead port. */
  lemma CrashWindowStrandsProxy(cfg: Config, reg: R.Registry, req: Request, ios: seq<Io>)
    requires R.Plain(cfg.hp)
    ensures var up := Exec(FirstStart(cfg, reg), DialSteps(req, false));
            var left := Restarts(cfg, Crash(up), ios);
            LT.Reachable(up) && left.backup.Some? && R.Dangling(left.reg, cfg.hp)
  {
    hide Exec, Restarts, DialSteps;
    var s := FirstStart(cfg, reg);
    assert SoundLeftover(Leftover(reg, None, Record(Stopped, "", Smart), {}, 0));
    DialConnects(s, req, false);
    R.OwnSpecIsReferenced(cfg.hp);
    NoStartRepairs(cfg, Crash(Exec(s, DialSteps(req, false))), ios);
  }

  /** From a first start that finds this record to a resting connection. */
  function UpSteps(req: Request, persisted: bool): seq<Step> {
    DialSteps(req, persisted) + [HolderStep(Works(true)), HolderStep(Works(true))]
  }

  /** A resting connection whose supervisor ticks, with our proxy set, before the startup task has run. */
  lemma ConnectionIsUp(cfg: Config, reg: R.Registry, record: Record, req: Request, persisted: bool)
    requires R.Plain(cfg.hp)
    ensures var up := Exec(StartWith(cfg, reg, record), UpSteps(req, persisted));
            && LT.Reachable(up) && up.holder.Free? && up.startupPending && up.conn == Connected && up.cfg == cfg
            && up.tasks == map[0 := Task(Tick(0), false)]
            && RS.Clean(up.proxy, cfg.hp) && R.Dangling(up.proxy.reg, cfg.hp)
            && up.active == Some(req.node) && up.ctxMode == Some(Parsed(req.mode))
            && up.record == if persisted then Record(Connected, req.node, Parsed(req.mode)) else record
  {
    hide RS.Clean, R.Sanitize, R.Run, Do, Exec, R.References, Parsed;
    var s := StartWith(cfg, reg, record);
    assert SoundLeftover(Leftover(reg, None, record, {}, 0));
    DialConnects(s, req, persisted);
    var dialled := Exec(s, DialSteps(req, persisted));
    ExecAppend(s, DialSteps(req, persisted), [HolderStep(Works(true)), HolderStep(Works(true))]);
    assert LT.Reachable(dialled);
    NoTaskYet(dialled);
    MonitorComesUp(dialled, req);
    FreshIsClean(reg, cfg.hp);
    LR.RunsStayClean(s, UpSteps(req, persisted));
    R.OwnSpecIsReferenced(cfg.hp);
  }

  lemma NoTaskYet(s: Sys)
    requires LT.Reachable(s) && s.holder.Probe?
    ensures s.tasks == map[]
  {
    LT.ReachableIsSound(s);
  }

  lemma MonitorComesUp(s: Sys, req: Request)
    requires s.holder == Probe(Connect(req, false), req.node)
    ensures var io := Works(true);
            var r := Exec(s, [HolderStep(io), HolderStep(io)]);
            && r.holder.Free? && r.conn == s.conn && r.active == s.active && r.ctxMode == s.ctxMode
            && r.tasks == s.tasks[s.nextTask := Task(Tick(0), false)] && SameBooks(s.(slot := r.slot, nextTask := r.nextTask), r)
  {
    var io := Works(true);
    var two := [HolderStep(io), HolderStep(io)];
    assert two[1..] == [HolderStep(io)] && two[1..][1..] == [];
    var spawned := Do(s, HolderStep(io));
    var up := Do(spawned, HolderStep(io));
    assert spawned.holder.Register?;
    hide Do;
    assert Exec(s, two) == Exec(spawned, two[1..]);
    assert Exec(spawned, [HolderStep(io)]) == Exec(up, []);
  }

  lemma FreshIsClean(reg: R.Registry, hp: string)
    ensures RS.Clean(R.Proxy(reg, None, None), hp)
  {
  }

  lemma {:induction false} ExecAppend(s: Sys, a: seq<Step>, b: seq<Step>)
    ensures Exec(s, a + b) == Exec(Exec(s, a), b)
    decreases a
  {
    hide Do;
    if a == [] {
      assert a + b == b;
    } else {
      assert (a + b)[1..] == a[1..] + b;
      ExecAppend(Do(s, a[0]), a[1..], b);
    }
  }
}
