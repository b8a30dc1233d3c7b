/** The connection protocol as a state machine. `connect`, `disconnect` and `startup_recover`
    are serialised by the guard; supervisor tasks run `recover` without it. One step is the code
    between two await points. Steps that cannot be taken leave the system as it is, so a run is
    any sequence of steps. */
module Lifecycle {
  import opened Prelude
  import opened ConnState
  import T = Text
  import R = Route
  import K = Core
  import M = Monitor

  datatype Mode = Global | Smart | Direct

  function ModeStr(m: Mode): string {
    match m
    case Global => "global"
    case Smart => "smart"
    case Direct => "direct"
  }

  function ParseMode(s: string): Mode {
    var l := T.Lower(s);
    if l == "global" then Global else if l == "direct" then Direct else Smart
  }

  /** All that the protocol observes of the mode text in a request: the mode it names in any
      case, if it names one. */
  datatype RawMode = Named(mode: Mode) | Unnamed

  function Classify(s: string): RawMode {
    var l := T.Lower(s);
    if l == "global" then Named(Global) else if l == "smart" then Named(Smart)
    else if l == "direct" then Named(Direct) else Unnamed
  }

  function Parsed(raw: RawMode): Mode {
    if raw.Named? then raw.mode else Smart
  }

  /** Classification loses nothing that `RouteMode::parse` or the same-target test can see. */
  lemma ClassifyIsFaithful(s: string, m: Mode)
    ensures ParseMode(s) == Parsed(Classify(s))
    ensures T.EqIgnoreCase(ModeStr(m), s) <==> Classify(s) == Named(m)
    ensures ParseMode(ModeStr(m)) == m && Classify(ModeStr(m)) == Named(m)
    ensures ParseMode(s) == Global <==> T.EqIgnoreCase(s, "global")
    ensures ParseMode(s) == Direct <==> T.EqIgnoreCase(s, "direct")
  {
    assert T.Lower("global") == "global" && T.Lower("smart") == "smart" && T.Lower("direct") == "direct";
    assert "global"[0] == 'g' && "smart"[0] == 's' && "direct"[0] == 'd';
  }

  datatype Config = Config(restartMax: nat, hp: string, bypass: string, restore: bool)

  datatype Request = Request(node: string, mode: RawMode)

  datatype Op = Connect(req: Request, boot: bool) | Disconnect

  /** Where the holder of the guard waits. */
  datatype Holder =
    | Free
    | Reap                                  // startup: stale cores are being killed
    | WaitMonitor(op: Op, awaited: Option<nat>)
    | StopCore(op: Op)                      // live switch
    | StartCore(op: Op, node: string)       // the child lock
    | WaitPort(op: Op, node: string)        // the inbound port of the spawned core
    | SetProxy(op: Op, node: string)
    | ClearProxy(op: Op, node: string)      // cleanup_partial
    | CleanCore(op: Op, node: string)       // cleanup_partial
    | Probe(op: Op, node: string)           // first latency reading
    | Register(op: Op, id: nat)             // the monitor slot

  /** Where a supervisor task waits. Recovery starts with `Selecting` or `RecStop`. */
  datatype Pc =
    | Tick(strikes: nat)
    | Checking(strikes: nat)
    | Selecting(prev: string)
    | RecStop(prev: string, target: string)
    | RecStart(prev: string, target: string)
    | RecWait(prev: string, target: string)
    | RecCheck(prev: string, target: string)
    | GiveUpProxy(prev: string)
    | GiveUpCore(prev: string)

  datatype Task = Task(pc: Pc, cancelled: bool)

  datatype Record = Record(lastState: State, node: string, mode: Mode)

  datatype Lookup = Missing | Disabled | Enabled

  /** Everything the environment decides about one step. */
  datatype Io = Io(
    lookup: Lookup,           // what nodes.get answers
    modeSaved: bool,          // the disk write of set_mode
    persisted: bool,          // the disk write of the runtime record
    budget: nat,              // registry writes that succeed
    backupOk: bool,           // the disk write of the proxy backup
    spawn: K.Spawn, wakeup: K.Wakeup, localOk: bool, tunnelOk: bool,
    pick: Option<string>,     // what smart_select answers
    smart: bool,              // the routing mode is smart
    tick: bool,               // the select! of the tick phase takes the ticker
    reaped: bool)             // the reaping of stale cores worked

  /** Facts about the past that theorems mention. */
  datatype History = History(
    legal: bool,              // every state write was an edge of the table
    refused: bool,            // a checked transition after the entry checks was refused
    regFault: bool,           // a registry write of set or clear failed
    modeFault: bool,          // a disk write of set_mode failed
    switchAborted: bool)      // the last abort was a live switch to a missing or disabled node

  datatype Sys = Sys(
    cfg: Config,
    conn: State, ctxMode: Option<Mode>,
    active: Option<string>, restarts: nat,
    core: K.Core,
    stale: set<nat>,          // core processes of earlier instances
    proxy: R.Proxy, session: Option<string>, record: Record,
    holder: Holder,
    slot: Option<nat>, tasks: map<nat, Task>, nextTask: nat,
    startupPending: bool, hist: History)

  datatype Step =
    | BeginConnect(req: Request, io: Io)
    | BeginDisconnect
    | BeginStartup
    | HolderStep(io: Io)
    | TaskStep(id: nat, io: Io)
    | ProcessDies(pid: nat)

  /** What one instance of the service leaves to the next. */
  datatype Leftover = Leftover(reg: R.Registry, backup: Option<R.Saved>, record: Record,
                               stale: set<nat>, nextPid: nat)

  ghost predicate SoundLeftover(l: Leftover) {
    forall p | p in l.stale :: p < l.nextPid
  }

  /** A freshly started service. */
  function Boot(cfg: Config, l: Leftover): Sys {
    Sys(cfg, Stopped, None, None, 0,
        K.Core(None, None, l.stale, K.CoreStatus.Stopped, l.nextPid), l.stale,
        R.Proxy(l.reg, None, l.backup), None, l.record, Free, None, map[], 0, true,
        History(true, false, false, false, false))
  }

  /** A hard crash: only the registry, the two files and stray processes survive. */
  function Crash(s: Sys): Leftover {
    Leftover(s.proxy.reg, s.proxy.backup, s.record, s.core.live, s.core.nextPid)
  }

  // ---------- State store ----------

  function Write(s: Sys, to: State): Sys {
    s.(conn := to, hist := s.hist.(legal := s.hist.legal && (MayMove(s.conn, to))))
  }

  /** A checked transition whose refusal would be returned to the caller. */
  function Transition(s: Sys, to: State): Sys {
    if MayMove(s.conn, to) then Write(s, to) else s.(hist := s.hist.(refused := true))
  }

  function SetContext(s: Sys, to: State, mode: Mode): Sys {
    if MayMove(s.conn, to)
    then Write(s, to).(ctxMode := Some(mode))
    else s.(hist := s.hist.(refused := true))
  }

  /** What the history says of a write and of a checked one: it is legal as long as every write was an edge of the table
      or kept the state, and a checked write that would not be is refused and changes nothing. */
  lemma HistoryIsTrue(s: Sys, to: State, mode: Mode)
    ensures Write(s, to).conn == to
    ensures Write(s, to).hist.legal <==> s.hist.legal && (s.conn == to || CanTransition(s.conn, to))
    ensures var ok := s.conn == to || CanTransition(s.conn, to);
            var t, c := Transition(s, to), SetContext(s, to, mode);
            && (ok ==> t == Write(s, to) && c == t.(ctxMode := Some(mode)))
            && (!ok ==> t == c == s.(hist := t.hist))
            && (t.hist.refused <==> s.hist.refused || !ok) && (c.hist.refused <==> s.hist.refused || !ok)
  {
  }

  function CtxMode(s: Sys): Mode {
    if s.ctxMode.Some? then s.ctxMode.value else Smart
  }

  function Persist(s: Sys, io: Io, st: State, node: string, mode: Mode): Sys {
    if io.persisted then s.(record := Record(st, node, mode)) else s
  }

  // ---------- Guarded operations ----------

  /** The end of an operation; a boot-time connect re-asserts or restores the proxy first. */
  function End(s: Sys, op: Op, ok: bool, io: Io): Sys {
    if op.Connect? && op.boot then
      if ok then s.(proxy := R.EnsureOutcome(s.proxy, s.cfg.hp, s.cfg.bypass, io.budget), holder := Free)
      else RestoreAtBoot(s, Parsed(op.req.mode), io)
    else s.(holder := Free)
  }

  function RestoreAtBoot(s: Sys, mode: Mode, io: Io): Sys {
    Persist(s.(proxy := R.RestoreOutcome(s.proxy, s.cfg.hp, io.budget), holder := Free),
            io, Stopped, "", mode)
  }

  function Abort(s: Sys, op: Op, node: string, io: Io): Sys
    requires op.Connect?
  {
    End(Persist(Write(s, Error), io, Error, node, Parsed(op.req.mode)).(active := None), op, false, io)
  }

  function TakeMonitor(s: Sys, op: Op): Sys {
    var tasks := if s.slot.Some? && s.slot.value in s.tasks
                 then s.tasks[s.slot.value := s.tasks[s.slot.value].(cancelled := true)]
                 else s.tasks;
    s.(holder := WaitMonitor(op, s.slot), slot := None, tasks := tasks)
  }

  /** connect_locked up to the first await. */
  function Enter(s: Sys, op: Op, io: Io): Sys
    requires op.Connect?
  {
    if s.conn == Connected then
      if s.active == Some(op.req.node) && s.ctxMode.Some? && op.req.mode == Named(s.ctxMode.value)
      then End(s, op, false, io)
      else TakeMonitor(Transition(s, State.Stopping), op)
    else if s.conn == Starting || s.conn == Connecting || s.conn == State.Stopping then
      End(s, op, false, io)
    else if !CanTransition(s.conn, Starting) then End(s, op, false, io)
    else Dial(Transition(s, Starting), op, false, io)
  }

  /** From STARTING to the start of the core. */
  function Dial(s: Sys, op: Op, live: bool, io: Io): Sys
    requires op.Connect?
  {
    if io.lookup != Enabled then
      Abort(s.(hist := s.hist.(switchAborted := s.hist.switchAborted || live)), op, "", io)
    else if !io.modeSaved then End(s.(hist := s.hist.(modeFault := true)), op, false, io)
    else SetContext(s.(hist := s.hist.(switchAborted := false)), Connecting, Parsed(op.req.mode))
         .(holder := StartCore(op, op.req.node))
  }

  function Startup(s: Sys, io: Io): Sys {
    var r := s.(core := if io.reaped then s.core.(live := {}) else s.core,
                stale := if io.reaped then {} else s.stale);
    if r.record.node == "" then r.(holder := Free)
    else if r.record.lastState == Connected && r.cfg.restore && io.lookup == Enabled then
      Enter(r.(proxy := R.Run(r.proxy, R.Prime, r.cfg.hp, r.cfg.bypass)),
            Connect(Request(r.record.node, Named(r.record.mode)), true), io)
    else RestoreAtBoot(r, r.record.mode, io)
  }

  function MonitorGone(s: Sys): Sys
    requires s.holder.WaitMonitor?
  {
    match s.holder.op
    case Connect(req, _) => s.(holder := StopCore(s.holder.op))
    case Disconnect => s.(holder := ClearProxy(Disconnect, ""))
  }

  function CoreStopped(s: Sys, io: Io): Sys
    requires s.holder.StopCore? && s.holder.op.Connect?
  {
    Dial(Transition(s.(core := K.Stop(s.core), session := None, active := None), Starting),
         s.holder.op, true, io)
  }

  function CoreSpawned(s: Sys, io: Io): Sys
    requires s.holder.StartCore?
  {
    match K.BeginStart(s.core, io.spawn)
    case Ok(c) => s.(core := c, holder := WaitPort(s.holder.op, s.holder.node))
    case Err(c) => s.(core := c, holder := ClearProxy(s.holder.op, s.holder.node))
  }

  function PortAnswered(s: Sys, io: Io): Sys
    requires s.holder.WaitPort? && s.core.spawning.Some?
  {
    match K.FinishStart(s.core, io.wakeup)
    case Ok(c) => s.(core := c, holder := SetProxy(s.holder.op, s.holder.node))
    case Err(c) => s.(core := c, holder := ClearProxy(s.holder.op, s.holder.node))
  }

  function ProxySet(s: Sys, io: Io): Sys
    requires s.holder.SetProxy? && s.holder.op.Connect?
  {
    var op, node := s.holder.op, s.holder.node;
    var ok := R.SetSucceeds(s.proxy, io.budget);
    var r := s.(proxy := R.SetOutcome(s.proxy, s.cfg.hp, s.cfg.bypass, io.budget, io.backupOk),
                hist := s.hist.(regFault := s.hist.regFault || !ok));
    if !ok then r.(holder := ClearProxy(op, node))
    else
      var mode := Parsed(op.req.mode);
      Persist(SetContext(r.(session := Some(node), active := Some(node), restarts := 0),
                         Connected, mode),
              io, Connected, node, mode).(holder := Probe(op, node))
  }

  function ProxyCleared(s: Sys, io: Io): (r: Sys)
    ensures r.tasks == s.tasks
  {
    s.(proxy := R.ClearOutcome(s.proxy, io.budget),
       hist := s.hist.(regFault := s.hist.regFault || !R.ClearSucceeds(s.proxy, io.budget)))
  }

  /** The last part of cleanup_partial and what follows it. */
  function Cleaned(s: Sys, io: Io): Sys
    requires s.holder.CleanCore?
  {
    var r := s.(core := K.Stop(s.core), session := None);
    match s.holder.op
    case Connect(_, _) => Abort(r, s.holder.op, s.holder.node, io)
    case Disconnect =>
      Transition(Persist(r, io, Stopped, "", CtxMode(r)).(active := None), Stopped)
      .(holder := Free)
  }

  function MonitorSpawned(s: Sys): Sys
    requires s.holder.Probe?
  {
    s.(tasks := s.tasks[s.nextTask := Task(Tick(0), false)], nextTask := s.nextTask + 1,
       holder := Register(s.holder.op, s.nextTask))
  }

  predicate HolderEnabled(s: Sys) {
    match s.holder
    case Free => false
    case WaitMonitor(_, awaited) => awaited.None? || awaited.value !in s.tasks
    case StopCore(op) => op.Connect?
    case SetProxy(op, _) => op.Connect?
    case WaitPort(_, _) => s.core.spawning.Some?
    case _ => true
  }

  function HolderMoves(s: Sys, io: Io): Sys
    requires HolderEnabled(s)
  {
    match s.holder
    case Reap => Startup(s, io)
    case WaitMonitor(_, _) => MonitorGone(s)
    case StopCore(_) => CoreStopped(s, io)
    case StartCore(_, _) => CoreSpawned(s, io)
    case WaitPort(_, _) => PortAnswered(s, io)
    case SetProxy(_, _) => ProxySet(s, io)
    case ClearProxy(op, node) => ProxyCleared(s, io).(holder := CleanCore(op, node))
    case CleanCore(_, _) => Cleaned(s, io)
    case Probe(_, _) => MonitorSpawned(s)
    case Register(op, id) => End(s.(slot := Some(id)), op, true, io)
  }

  function StartDisconnect(s: Sys): Sys {
    if s.conn == Error then TakeMonitor(s, Disconnect)
    else if s.conn != Connected && s.conn != Reconnecting then s
    else TakeMonitor(Transition(s, State.Stopping), Disconnect)
  }

  // ---------- The supervisor ----------

  function Finish(s: Sys, id: nat): Sys {
    s.(tasks := s.tasks - {id})
  }

  function Goto(s: Sys, id: nat, pc: Pc): Sys
    requires id in s.tasks
  {
    s.(tasks := s.tasks[id := s.tasks[id].(pc := pc)])
  }

  /** What `supervise` does once `recover` has returned. */
  function AfterRecover(s: Sys, id: nat): Sys
    requires id in s.tasks
  {
    if s.conn != Connected then Finish(s, id) else Goto(s, id, Tick(0))
  }

  function BeginRecover(s: Sys, id: nat, io: Io): Sys
    requires id in s.tasks
  {
    if s.active.None? || s.conn != Connected then AfterRecover(s, id)
    else
      var node := s.active.value;
      var r := Write(s, Reconnecting).(restarts := s.restarts + 1);
      if r.restarts <= r.cfg.restartMax then Goto(r, id, RecStop(node, node))
      else if io.smart then Goto(r, id, Selecting(node))
      else Goto(r, id, GiveUpProxy(node))
  }

  /** The unchecked result of set_context: from STOPPING the state stays as it is. */
  function MarkRecovered(s: Sys, node: string, io: Io): (r: Sys)
    ensures r.tasks == s.tasks
  {
    var u := s.(restarts := 0, active := Some(node));
    var t := if MayMove(u.conn, Connected)
             then Write(u, Connected) else u;
    Persist(t, io, Connected, node, CtxMode(s))
  }

  /** The tick phase. */
  function TickMoves(s: Sys, id: nat, io: Io): Sys
    requires id in s.tasks && (s.tasks[id].pc.Tick? || s.tasks[id].pc.Checking?)
  {
    match s.tasks[id].pc
    case Tick(k) =>
      if (s.tasks[id].cancelled && !io.tick) || s.conn != Connected then Finish(s, id)
      else Goto(s, id, Checking(k))
    case Checking(k) =>
      match M.Next(k, K.Check(s.core, io.localOk, io.tunnelOk))
      case Some(strikes) => Goto(s, id, Tick(strikes))
      case None => BeginRecover(s, id, io)
  }

  /** `restart`, or the stop and start of a smart switch. */
  function CoreMoves(s: Sys, id: nat, io: Io): Sys
    requires id in s.tasks
    requires var pc := s.tasks[id].pc; pc.RecStop? || pc.RecStart? || pc.RecWait?
  {
    match s.tasks[id].pc
    case RecStop(prev, target) => Goto(s.(core := K.Stop(s.core)), id, RecStart(prev, target))
    case RecStart(prev, target) =>
      var r := K.BeginStart(s.core, io.spawn);
      Goto(s.(core := if r.Ok? then r.value else r.error), id,
           if r.Ok? then RecWait(prev, target) else GiveUpProxy(prev))
    case RecWait(prev, target) =>
      if s.core.spawning.None? then s
      else
        var r := K.FinishStart(s.core, io.wakeup);
        Goto(s.(core := if r.Ok? then r.value else r.error), id,
             if r.Ok? then RecCheck(prev, target) else GiveUpProxy(prev))
  }

  function GiveUp(s: Sys, prev: string, io: Io): (r: Sys)
    ensures r.tasks == s.tasks
  {
    Persist(Write(s.(core := K.Stop(s.core), session := None, active := None), Error),
            io, Error, prev, CtxMode(s))
  }

  /** One step of a supervisor task. */
  function TaskMoves(s: Sys, id: nat, io: Io): Sys
    requires id in s.tasks
  {
    var pc := s.tasks[id].pc;
    if pc.Tick? || pc.Checking? then TickMoves(s, id, io)
    else if pc.RecStop? || pc.RecStart? || pc.RecWait? then CoreMoves(s, id, io)
    else match pc
      case Selecting(prev) =>
        if io.pick.Some? && io.pick.value != prev && io.lookup != Missing
        then Goto(s, id, RecStop(prev, io.pick.value)) else Goto(s, id, GiveUpProxy(prev))
      case RecCheck(prev, target) =>
        if K.Check(s.core, io.localOk, io.tunnelOk) == K.Healthy
        then AfterRecover(MarkRecovered(s, target, io), id) else Goto(s, id, GiveUpProxy(prev))
      case GiveUpProxy(prev) => Goto(ProxyCleared(s, io), id, GiveUpCore(prev))
      case GiveUpCore(prev) => AfterRecover(GiveUp(s, prev, io), id)
  }

  // ---------- Runs ----------

  function Do(s: Sys, step: Step): Sys {
    match step
    case BeginConnect(req, io) => if s.holder.Free? then Enter(s, Connect(req, false), io) else s
    case BeginDisconnect => if s.holder.Free? then StartDisconnect(s) else s
    case BeginStartup =>
      if s.holder.Free? && s.startupPending
      then s.(holder := Reap, startupPending := false) else s
    case HolderStep(io) => if HolderEnabled(s) then HolderMoves(s, io) else s
    case TaskStep(id, io) => if id in s.tasks then TaskMoves(s, id, io) else s
    case ProcessDies(pid) => s.(core := s.core.(live := s.core.live - {pid}))
  }

  function Exec(s: Sys, steps: seq<Step>): Sys
    decreases steps
  {
    if steps == [] then s else Exec(Do(s, steps[0]), steps[1..])
  }
}
