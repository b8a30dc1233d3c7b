/** Every way into ERROR, and when it leaves the machine pointed at a dead port: a whole connect, a whole live switch,
    a recovery that gives up; and what a disconnect then makes of it. */
module LifecycleErrors {
  import opened Prelude
  import opened ConnState
  import opened Lifecycle
  import opened LifecycleInvariant
  import opened LifecycleScenarios
  import opened LifecycleStartup
  import R = Route
  import RS = RouteSafety
  import K = Core
  import LR = LifecycleRegistry
  import LT = LifecycleTheorems

  // ---------- A dial from beginning to end ----------

  /** What the environment answers at each of the waits of a connect. */
  datatype Answers = Answers(dial: Io, spawn: Io, port: Io, proxy: Io, clear: Io, clean: Io)

  function Answer(a: Answers, h: Holder): Io {
    match h
    case StartCore(_, _) => a.spawn
    case WaitPort(_, _) => a.port
    case SetProxy(_, _) => a.proxy
    case ClearProxy(_, _) => a.clear
    case CleanCore(_, _) => a.clean
    case _ => a.dial
  }

  /** The guard holder takes `n` steps, or as many as it has left. */
  function Proceed(s: Sys, a: Answers, n: nat): Sys
    decreases n
  {
    if n == 0 then s else Proceed(Do(s, HolderStep(Answer(a, s.holder))), a, n - 1)
  }

  /** Why a dial ends in ERROR: there is no node to dial; its core does not come up; or the proxy cannot be set,
      `written` registry writes having succeeded. */
  datatype Fault = NoNode | CoreFailed(cleared: nat) | SetCut(written: nat)

  predicate CoreFails(a: Answers) {
    a.spawn.spawn != K.Spawned || a.port.wakeup != K.Up
  }

  function FaultOf(p: R.Proxy, a: Answers): Option<Fault> {
    if a.dial.lookup != Enabled then Some(NoNode)
    else if !a.dial.modeSaved then None
    else if CoreFails(a) then Some(CoreFailed(a.clear.budget))
    else if !R.SetSucceeds(p, a.proxy.budget) then Some(SetCut(a.proxy.budget))
    else None
  }

  /** What a fault leaves of the proxy settings. */
  function ProxyAfter(p: R.Proxy, cfg: Config, a: Answers, f: Fault): R.Proxy {
    match f
    case NoNode => p
    case CoreFailed(cleared) => R.ClearOutcome(p, cleared)
    case SetCut(written) => R.SetOutcome(p, cfg.hp, cfg.bypass, written, a.proxy.backupOk)
  }

  /** Our endpoint is enabled after the fault, though nobody listens there. */
  predicate LeavesDeadProxy(p: R.Proxy, hp: string, f: Fault) {
    match f
    case NoNode => R.Dangling(p.reg, hp)
    case CoreFailed(cleared) => RS.ClearLeavesDeadProxy(p, hp, cleared)
    case SetCut(written) => RS.CutSetLeavesDeadProxy(p.reg, hp, written)
  }

  lemma FaultLeavesDeadProxy(p: R.Proxy, cfg: Config, a: Answers, f: Fault)
    requires R.Plain(cfg.hp) && RS.Clean(p, cfg.hp) && FaultOf(p, a) == Some(f)
    ensures R.Dangling(ProxyAfter(p, cfg, a, f).reg, cfg.hp) <==> LeavesDeadProxy(p, cfg.hp, f)
    ensures ProxyAfter(p, cfg, a, f).saved.Some? ==> f.NoNode?
  {
    hide R.Dangling, R.ClearOutcome, R.SetOutcome, RS.ClearLeavesDeadProxy, RS.CutSetLeavesDeadProxy, R.SetSucceeds,
         RS.Clean, R.Plain;
    match f
    case NoNode =>
    case CoreFailed(cleared) =>
      RS.ClearLeavesDeadProxyExactly(p, cfg.hp, cleared);
      RS.ClearDropsSnapshot(p, cleared);
    case SetCut(written) => RS.CutSetLeavesDeadProxyExactly(p, cfg.hp, cfg.bypass, written, a.proxy.backupOk);
  }

  lemma {:induction false} NothingLeft(s: Sys, a: Answers, n: nat)
    requires s.holder.Free?
    ensures Proceed(s, a, n) == s
    decreases n
  {
    if n > 0 {
      NothingLeft(s, a, n - 1);
    }
  }

  lemma ProceedOnce(s: Sys, a: Answers, n: nat)
    requires n > 0
    ensures Proceed(s, a, n) == Proceed(Do(s, HolderStep(Answer(a, s.holder))), a, n - 1)
  {
  }

  lemma {:induction false} ProceedReaches(s: Sys, a: Answers, n: nat)
    requires LT.Reachable(s)
    ensures LT.Reachable(Proceed(s, a, n))
    decreases n
  {
    hide Do, LT.Reachable;
    if n > 0 {
      var step := HolderStep(Answer(a, s.holder));
      OneStep(s, step);
      ReachableFurther(s, [step]);
      ProceedReaches(Do(s, step), a, n - 1);
    }
  }

  /** A dial has got here with everything but the core as it was. */
  predicate Stands(s: Sys, before: Sys) {
    s.proxy == before.proxy && s.cfg == before.cfg && s.conn == Connecting && s.record == before.record
  }

  predicate IsUp(c: K.Core) {
    c.child.Some? && c.status == K.Running
  }

  lemma CoreDecides(s: Sys, a: Answers, op: Op, node: string)
    requires s.holder == StartCore(op, node) && s.core.child.None? && s.conn == Connecting
    ensures var one := Do(s, HolderStep(a.spawn));
            var two := Do(one, HolderStep(a.port));
            && (a.spawn.spawn != K.Spawned ==> one.holder == ClearProxy(op, node) && Stands(one, s))
            && (a.spawn.spawn == K.SpawnFailed ==> one.core.status == K.CoreStatus.Error)
            && (a.spawn.spawn == K.Spawned ==>
                  && one.holder == WaitPort(op, node)
                  && two.holder == (if a.port.wakeup == K.Up then SetProxy(op, node) else ClearProxy(op, node))
                  && (a.port.wakeup == K.Up ==> IsUp(two.core))
                  && Stands(two, s))
  {
    var one := Do(s, HolderStep(a.spawn));
    if a.spawn.spawn == K.Spawned {
      assert one.holder == WaitPort(op, node) && one.core.spawning.Some?;
    }
  }

  /** The connection is the one asked for. */
  predicate Serves(s: Sys, req: Request, node: string) {
    && s.active == Some(node) && s.session == Some(node) && s.ctxMode == Some(Parsed(req.mode)) && s.restarts == 0
  }

  lemma ProxyIsSet(s: Sys, io: Io, op: Op, node: string)
    requires s.holder == SetProxy(op, node) && op.Connect? && s.conn == Connecting
    ensures var r := Do(s, HolderStep(io));
            && r.proxy == R.SetOutcome(s.proxy, s.cfg.hp, s.cfg.bypass, io.budget, io.backupOk) && r.cfg == s.cfg
            && r.core == s.core
            && (if R.SetSucceeds(s.proxy, io.budget) then
                  && r.holder == Probe(op, node) && r.conn == Connected && Serves(r, op.req, node)
                  && r.record == (if io.persisted then Record(Connected, node, Parsed(op.req.mode)) else s.record)
                else r.holder == ClearProxy(op, node) && r.conn == Connecting && r.record == s.record)
  {
    hide R.SetOutcome, R.SetSucceeds, Parsed;
  }

  predicate Down(s: Sys) {
    s.active.None? && s.session.None? && s.core.child.None?
  }

  /** The end of a dial that failed. */
  lemma Unwinds(s: Sys, a: Answers, op: Op, node: string)
    requires s.holder == ClearProxy(op, node) && op.Connect? && !op.boot && s.conn == Connecting
    ensures var r := Do(Do(s, HolderStep(a.clear)), HolderStep(a.clean));
            && r.holder.Free? && r.conn == Error && r.proxy == R.ClearOutcome(s.proxy, a.clear.budget) && r.cfg == s.cfg
            && Down(r) && r.record == if a.clean.persisted then Record(Error, node, Parsed(op.req.mode)) else s.record
  {
    hide R.ClearOutcome, R.ClearSucceeds, Parsed;
    var one := Do(s, HolderStep(a.clear));
    assert one.holder == CleanCore(op, node) && one.conn == Connecting && one.record == s.record;
  }

  /** The end of one that came up. */
  lemma Settles(s: Sys, a: Answers, op: Op, node: string)
    requires s.holder == Probe(op, node) && op.Connect? && !op.boot
    ensures var r := Do(Do(s, HolderStep(a.dial)), HolderStep(a.dial));
            && r.holder.Free? && r.conn == s.conn && r.proxy == s.proxy && r.cfg == s.cfg && r.core == s.core
            && r.record == s.record && r.active == s.active && r.session == s.session && r.ctxMode == s.ctxMode
            && r.restarts == s.restarts
  {
  }

  lemma UnwindsWithin(s: Sys, a: Answers, op: Op, node: string, n: nat)
    requires s.holder == ClearProxy(op, node) && op.Connect? && !op.boot && s.conn == Connecting && n >= 2
    ensures var r := Proceed(s, a, n);
            && r.holder.Free? && r.conn == Error && r.proxy == R.ClearOutcome(s.proxy, a.clear.budget) && r.cfg == s.cfg
            && Down(r) && r.record == if a.clean.persisted then Record(Error, node, Parsed(op.req.mode)) else s.record
  {
    hide Do, R.ClearOutcome;
    Unwinds(s, a, op, node);
    var one := Do(s, HolderStep(a.clear));
    assert one.holder == CleanCore(op, node) by { ClearedThenCleaned(s, a.clear, op, node); }
    ProceedOnce(s, a, n);
    ProceedOnce(one, a, n - 1);
    NothingLeft(Do(one, HolderStep(a.clean)), a, n - 2);
  }

  lemma ClearedThenCleaned(s: Sys, io: Io, op: Op, node: string)
    requires s.holder == ClearProxy(op, node)
    ensures Do(s, HolderStep(io)).holder == CleanCore(op, node)
  {
  }

  lemma SettlesWithin(s: Sys, a: Answers, op: Op, node: string, n: nat)
    requires s.holder == Probe(op, node) && op.Connect? && !op.boot && n >= 2
    ensures var r := Proceed(s, a, n);
            && r.holder.Free? && r.conn == s.conn && r.proxy == s.proxy && r.cfg == s.cfg && r.core == s.core
            && r.record == s.record && r.active == s.active && r.session == s.session && r.ctxMode == s.ctxMode
            && r.restarts == s.restarts
  {
    hide Do;
    Settles(s, a, op, node);
    var one := Do(s, HolderStep(a.dial));
    assert one.holder.Register? by { ProbedThenRegistered(s, a.dial); }
    ProceedOnce(s, a, n);
    ProceedOnce(one, a, n - 1);
    NothingLeft(Do(one, HolderStep(a.dial)), a, n - 2);
  }

  lemma ProbedThenRegistered(s: Sys, io: Io)
    requires s.holder.Probe?
    ensures Do(s, HolderStep(io)).holder.Register?
  {
  }

  /** How a dial ends: in ERROR with a fault and nothing running, in STARTING when the mode cannot be saved, or in
      CONNECTED to the node asked for, with its core up. The record on disk says which. */
  predicate Ended(before: Sys, req: Request, a: Answers, r: Sys) {
    && r.holder.Free? && r.cfg == before.cfg
    && if a.dial.lookup == Enabled && !a.dial.modeSaved then r.conn == Starting && r.proxy == before.proxy
       else match FaultOf(before.proxy, a)
         case Some(f) =>
           && r.conn == Error && r.proxy == ProxyAfter(before.proxy, before.cfg, a, f) && Down(r)
           && r.record == (if f.NoNode? && a.dial.persisted then Record(Error, "", Parsed(req.mode))
                           else if !f.NoNode? && a.clean.persisted then Record(Error, req.node, Parsed(req.mode))
                           else before.record)
         case None =>
           && r.conn == Connected && Serves(r, req, req.node) && IsUp(r.core)
           && r.proxy == R.SetOutcome(before.proxy, before.cfg.hp, before.cfg.bypass, a.proxy.budget, a.proxy.backupOk)
           && r.record == if a.proxy.persisted then Record(Connected, req.node, Parsed(req.mode)) else before.record
  }

  lemma DialFromCore(s: Sys, a: Answers, req: Request, n: nat)
    requires s.holder == StartCore(Connect(req, false), req.node) && s.core.child.None? && s.conn == Connecting
    requires a.dial.lookup == Enabled && a.dial.modeSaved && n >= 5
    ensures Ended(s, req, a, Proceed(s, a, n))
  {
    hide Do, R.SetOutcome, R.ClearOutcome, R.SetSucceeds, Parsed;
    var op, node := Connect(req, false), req.node;
    CoreDecides(s, a, op, node);
    ProceedOnce(s, a, n);
    var one := Do(s, HolderStep(a.spawn));
    if a.spawn.spawn != K.Spawned {
      UnwindsWithin(one, a, op, node, n - 1);
    } else {
      var two := Do(one, HolderStep(a.port));
      ProceedOnce(one, a, n - 1);
      if a.port.wakeup != K.Up {
        UnwindsWithin(two, a, op, node, n - 2);
      } else {
        var three := Do(two, HolderStep(a.proxy));
        ProxyIsSet(two, a.proxy, op, node);
        ProceedOnce(two, a, n - 2);
        if R.SetSucceeds(two.proxy, a.proxy.budget) {
          SettlesWithin(three, a, op, node, n - 3);
        } else {
          CutSetRemembersNothing(s.proxy, s.cfg, a);
          UnwindsWithin(three, a, op, node, n - 3);
        }
      }
    }
  }

  /** So the clear after a set that was cut does nothing. */
  lemma CutSetRemembersNothing(p: R.Proxy, cfg: Config, a: Answers)
    requires !R.SetSucceeds(p, a.proxy.budget)
    ensures var q := R.SetOutcome(p, cfg.hp, cfg.bypass, a.proxy.budget, a.proxy.backupOk);
            R.ClearOutcome(q, a.clear.budget) == q
  {
    RS.SetKeepsSnapshot(p, cfg.hp, cfg.bypass, a.proxy.budget, a.proxy.backupOk);
    LR.ClearOfNothing(R.SetOutcome(p, cfg.hp, cfg.bypass, a.proxy.budget, a.proxy.backupOk), a.clear.budget);
  }

  // ---------- The whole connect ----------

  lemma DialBegins(s: Sys, req: Request, io: Io)
    requires Inv(s) && s.holder.Free? && (s.conn == Stopped || s.conn == Error)
    ensures var r := Do(s, BeginConnect(req, io));
            && r.proxy == s.proxy && r.cfg == s.cfg
            && r.record == (if io.lookup != Enabled && io.persisted then Record(Error, "", Parsed(req.mode)) else s.record)
            && if io.lookup != Enabled then r.holder.Free? && r.conn == Error && Down(r)
               else if !io.modeSaved then r.holder.Free? && r.conn == Starting
               else r.holder == StartCore(Connect(req, false), req.node) && r.conn == Connecting && r.core.child.None?
  {
    hide R.RestoreOutcome, R.EnsureOutcome, Parsed;
  }

  /** A connect from rest ends in ERROR exactly with a fault, and then leaves a dead proxy exactly as that fault
      does: it clears nothing where it has remembered nothing. */
  lemma WholeConnect(s: Sys, req: Request, a: Answers)
    requires LT.Reachable(s) && s.holder.Free? && (s.conn == Stopped || s.conn == Error)
    requires R.Plain(s.cfg.hp) && RS.Clean(s.proxy, s.cfg.hp)
    ensures var r := Proceed(Do(s, BeginConnect(req, a.dial)), a, 5);
            && Ended(s, req, a, r)
            && (r.conn == Error <==> FaultOf(s.proxy, a).Some?)
            && (r.conn == Error ==>
                  (R.Dangling(r.proxy.reg, s.cfg.hp) <==> LeavesDeadProxy(s.proxy, s.cfg.hp, FaultOf(s.proxy, a).value)))
  {
    hide Do, Inv, R.Dangling, LeavesDeadProxy, R.SetOutcome, R.SetSucceeds, ProxyAfter, Parsed;
    LT.ReachableIsSound(s);
    DialBegins(s, req, a.dial);
    var s1 := Do(s, BeginConnect(req, a.dial));
    if a.dial.lookup == Enabled && a.dial.modeSaved {
      DialFromCore(s1, a, req, 5);
    } else {
      NothingLeft(s1, a, 5);
      assert a.dial.lookup != Enabled ==> ProxyAfter(s.proxy, s.cfg, a, NoNode) == s.proxy by { NoNodeNoChange(s.proxy, s.cfg, a); }
    }
    if FaultOf(s.proxy, a).Some? {
      FaultLeavesDeadProxy(s.proxy, s.cfg, a, FaultOf(s.proxy, a).value);
    }
  }

  lemma NoNodeNoChange(p: R.Proxy, cfg: Config, a: Answers)
    ensures ProxyAfter(p, cfg, a, NoNode) == p
  {
  }

  // ---------- The whole live switch ----------

  lemma SwitchBegins(s: Sys, req: Request, io: Io)
    requires Inv(s) && s.holder.Free? && s.conn == Connected && !LifecycleInvariant.SameTarget(s, Connect(req, false))
    ensures var r := Do(s, BeginConnect(req, io));
            && r.holder.WaitMonitor? && r.holder.op == Connect(req, false) && r.proxy == s.proxy && r.cfg == s.cfg
  {
    hide R.RestoreOutcome, R.EnsureOutcome, Dial, Parsed;
  }

  lemma SwitchWaitHolds(s: Sys)
    requires Inv(s) && s.holder.WaitMonitor? && s.holder.op.Connect?
    ensures s.proxy.saved.Some? && s.conn == State.Stopping && s.core.child.Some?
  {
  }

  lemma SwitchDials(s: Sys, req: Request, a: Answers)
    requires s.holder.WaitMonitor? && s.holder.op == Connect(req, false) && HolderEnabled(s) && s.conn == State.Stopping
    ensures var one := Do(s, HolderStep(a.dial));
            var r := Do(one, HolderStep(a.dial));
            && one.holder.StopCore? && r.proxy == s.proxy && r.cfg == s.cfg
            && r.record == (if a.dial.lookup != Enabled && a.dial.persisted then Record(Error, "", Parsed(req.mode)) else s.record)
            && if a.dial.lookup != Enabled then r.holder.Free? && r.conn == Error && Down(r)
               else if !a.dial.modeSaved then r.holder.Free? && r.conn == Starting
               else r.holder == StartCore(Connect(req, false), req.node) && r.conn == Connecting && r.core.child.None?
  {
    hide R.RestoreOutcome, R.EnsureOutcome, Parsed;
    var one := Do(s, HolderStep(a.dial));
    assert one == s.(holder := StopCore(Connect(req, false)));
  }

  /** A live switch, whatever the supervisor does until it is gone, ends in ERROR exactly with a fault: no node, or a
      core that does not come up, for its set finds the snapshot and does nothing. With no node the proxy and the
      snapshot stay as they are; a failed core gives the snapshot up, and what its clear cannot write stays. */
  lemma WholeSwitch(s: Sys, req: Request, wait: seq<Step>, a: Answers)
    requires LT.Reachable(s) && s.holder.Free? && s.conn == Connected
             && !LifecycleInvariant.SameTarget(s, Connect(req, false))
    requires R.Plain(s.cfg.hp) && RS.Clean(s.proxy, s.cfg.hp) && Unguarded(wait)
    requires HolderEnabled(Exec(Do(s, BeginConnect(req, a.dial)), wait))
    ensures var q := Exec(Do(s, BeginConnect(req, a.dial)), wait);
            var r := Proceed(q, a, 7);
            && Ended(q, req, a, r) && q.proxy == s.proxy
            && (r.conn == Error <==> a.dial.lookup != Enabled || (a.dial.modeSaved && CoreFails(a)))
            && (r.conn == Error ==>
                  && (R.Dangling(r.proxy.reg, s.cfg.hp) <==> LeavesDeadProxy(s.proxy, s.cfg.hp, FaultOf(s.proxy, a).value))
                  && (r.proxy.saved.Some? <==> a.dial.lookup != Enabled))
  {
    hide Do, Exec, Inv, R.Dangling, LeavesDeadProxy, R.SetOutcome, ProxyAfter, HolderEnabled, RS.Clean, Unguarded, Parsed;
    LT.ReachableIsSound(s);
    SwitchBegins(s, req, a.dial);
    var s1 := Do(s, BeginConnect(req, a.dial));
    var q := Exec(s1, wait);
    OneStep(s, BeginConnect(req, a.dial));
    ReachableFurther(s, [BeginConnect(req, a.dial)]);
    ReachableFurther(s1, wait);
    LT.ReachableIsSound(q);
    UnguardedRun(s1, wait);
    SwitchWaitHolds(q);
    assert q.proxy == s.proxy;
    SwitchDials(q, req, a);
    var one := Do(q, HolderStep(a.dial));
    var r := Do(one, HolderStep(a.dial));
    ProceedOnce(q, a, 7);
    ProceedOnce(one, a, 6);
    if a.dial.lookup == Enabled && a.dial.modeSaved {
      DialFromCore(r, a, req, 5);
    } else {
      NothingLeft(r, a, 5);
      NoNodeNoChange(s.proxy, s.cfg, a);
    }
    if FaultOf(s.proxy, a).Some? {
      FaultLeavesDeadProxy(s.proxy, s.cfg, a, FaultOf(s.proxy, a).value);
    }
  }

  // ---------- Nobody else moves ----------

  /** The guard is held by a dial. */
  predicate Dialling(h: Holder) {
    h.StopCore? || h.StartCore? || h.WaitPort? || h.SetProxy? || h.ClearProxy? || h.CleanCore?
  }

  /** Between the segments of a dial no step of anyone else has an effect, except that processes die. */
  lemma OthersOnlyWatch(s: Sys, step: Step)
    requires Inv(s) && Dialling(s.holder) && !step.HolderStep?
    ensures var r := Do(s, step); r == s.(core := s.core.(live := r.core.live))
  {
  }

  // ---------- A recovery that gives up ----------

  lemma WaitingToGiveUp(s: Sys, id: nat, step: Step)
    requires Inv(s) && LR.Settled(s) && id in s.tasks && s.tasks[id].pc.GiveUpCore?
    requires !(step.TaskStep? && step.id == id)
    ensures var r := Do(s, step);
            && Inv(r) && LR.Settled(r) && id in r.tasks && r.tasks[id].pc.GiveUpCore?
            && r.proxy == s.proxy && r.cfg == s.cfg
  {
    StepIsSound(s, step);
    LR.OnlySetAndClearWrite(s, step);
    AliveMeans(s, id);
    assert step.TaskStep? ==> step.id !in s.tasks;
    OthersGoOn(s, id, step);
  }

  lemma OthersGoOn(s: Sys, id: nat, step: Step)
    requires s.holder.Free? || s.holder.Register? || (s.holder.WaitMonitor? && s.holder.awaited == Some(id))
    requires s.holder.Free? ==> s.conn == Reconnecting
    requires id in s.tasks && s.tasks[id].pc.GiveUpCore? && (step.TaskStep? ==> step.id !in s.tasks)
    ensures var r := Do(s, step); id in r.tasks && r.tasks[id].pc.GiveUpCore?
  {
    hide R.RestoreOutcome, R.EnsureOutcome, Parsed, Dial;
  }

  lemma {:induction false} WaitsToGiveUp(s: Sys, id: nat, steps: seq<Step>)
    requires Inv(s) && LR.Settled(s) && id in s.tasks && s.tasks[id].pc.GiveUpCore?
    requires forall i | 0 <= i < |steps| :: !(steps[i].TaskStep? && steps[i].id == id)
    ensures var r := Exec(s, steps);
            id in r.tasks && r.tasks[id].pc.GiveUpCore? && r.proxy == s.proxy && r.cfg == s.cfg
    decreases steps
  {
    hide Do, Inv, LR.Settled;
    if steps != [] {
      WaitingToGiveUp(s, id, steps[0]);
      WaitsToGiveUp(Do(s, steps[0]), id, steps[1..]);
    }
  }

  lemma LastStage(s: Sys, id: nat, io: Io)
    requires id in s.tasks && s.tasks[id].pc.GiveUpCore?
    ensures var r := Do(s, TaskStep(id, io));
            r.conn == Error && id !in r.tasks && r.proxy == s.proxy && r.core.child.None?
  {
  }

  lemma FirstStage(s: Sys, id: nat, io: Io)
    requires LR.Settled(s) && id in s.tasks && s.tasks[id].pc.GiveUpProxy?
    ensures var r := Do(s, TaskStep(id, io));
            && r.proxy == R.ClearOutcome(s.proxy, io.budget) && r.cfg == s.cfg && LR.Settled(r)
            && id in r.tasks && r.tasks[id].pc.GiveUpCore?
  {
    hide R.ClearOutcome, R.ClearSucceeds;
    LR.GiveUpProxyStep(s, id, io);
  }

  /** A recovery that gives up, with whatever steps of others between its two last segments: it ends in ERROR with no
      core, and leaves a dead proxy exactly as its clear does. */
  lemma GivingUp(s: Sys, id: nat, io: Io, between: seq<Step>, last: Io)
    requires LT.Reachable(s) && LR.Settled(s) && id in s.tasks && s.tasks[id].pc.GiveUpProxy?
    requires RS.Clean(s.proxy, s.cfg.hp)
    requires forall i | 0 <= i < |between| :: !(between[i].TaskStep? && between[i].id == id)
    ensures var r := Do(Exec(Do(s, TaskStep(id, io)), between), TaskStep(id, last));
            && r.conn == Error && id !in r.tasks && r.core.child.None? && r.proxy.saved.None?
            && (R.Dangling(r.proxy.reg, s.cfg.hp) <==> RS.ClearLeavesDeadProxy(s.proxy, s.cfg.hp, io.budget))
  {
    hide Do, Exec, Inv, LR.Settled, RS.Clean, R.Dangling, R.ClearOutcome, RS.ClearLeavesDeadProxy;
    LT.ReachableIsSound(s);
    StepIsSound(s, TaskStep(id, io));
    FirstStage(s, id, io);
    var s1 := Do(s, TaskStep(id, io));
    WaitsToGiveUp(s1, id, between);
    LastStage(Exec(s1, between), id, last);
    RS.ClearLeavesDeadProxyExactly(s.proxy, s.cfg.hp, io.budget);
    RS.ClearDropsSnapshot(s.proxy, io.budget);
  }

  // ---------- What a disconnect makes of it ----------

  /** A disconnect in ERROR, recorded on disk, and any number of starts after it: the dead proxy is there for good
      exactly where the clear leaves it, and so always where there is nothing to clear with. */
  lemma DeadProxyOutlivesDisconnect(s: Sys, io: Io, last: Io, ios: seq<Io>)
    requires LT.Reachable(s) && s.holder.Free? && s.conn == Error && RS.Clean(s.proxy, s.cfg.hp) && last.persisted
    ensures var left := Restarts(s.cfg, Crash(Exec(s, HangUp(io, last))), ios);
            R.Dangling(left.reg, s.cfg.hp) <==>
              if s.proxy.saved.None? then R.Dangling(s.proxy.reg, s.cfg.hp)
              else RS.ClearLeavesDeadProxy(s.proxy, s.cfg.hp, io.budget)
  {
    hide Exec, HangUp, Restarts, R.Dangling, R.ClearOutcome, RS.Clean;
    DisconnectAfterError(s, io, last);
    NoStartRepairs(s.cfg, Crash(Exec(s, HangUp(io, last))), ios);
  }

  /** A connect whose set is cut has stored neither snapshot nor backup. What it leaves is not repaired by the
      disconnect that follows, nor by any start after that. */
  lemma CutSetIsNeverRepaired(s: Sys, req: Request, a: Answers, io: Io, last: Io, ios: seq<Io>)
    requires LT.Reachable(s) && s.holder.Free? && (s.conn == Stopped || s.conn == Error)
    requires R.Plain(s.cfg.hp) && RS.Clean(s.proxy, s.cfg.hp) && last.persisted
    requires FaultOf(s.proxy, a).Some? && FaultOf(s.proxy, a).value.SetCut?
    ensures var failed := Proceed(Do(s, BeginConnect(req, a.dial)), a, 5);
            var left := Restarts(s.cfg, Crash(Exec(failed, HangUp(io, last))), ios);
            R.Dangling(left.reg, s.cfg.hp) <==> RS.CutSetLeavesDeadProxy(s.proxy.reg, s.cfg.hp, a.proxy.budget)
  {
    hide Do, Exec, HangUp, Restarts, R.Dangling, R.ClearOutcome, R.SetOutcome, RS.Clean, R.SetSucceeds, R.Plain,
         RS.CutSetLeavesDeadProxy;
    WholeConnect(s, req, a);
    var s1 := Do(s, BeginConnect(req, a.dial));
    var failed := Proceed(s1, a, 5);
    OneStep(s, BeginConnect(req, a.dial));
    ReachableFurther(s, [BeginConnect(req, a.dial)]);
    ProceedReaches(s1, a, 5);
    FaultLeavesDeadProxy(s.proxy, s.cfg, a, FaultOf(s.proxy, a).value);
    RS.OutcomesKeepClean(s.proxy, s.cfg.hp, s.cfg.bypass, a.proxy.budget, a.proxy.backupOk);
    DeadProxyOutlivesDisconnect(failed, io, last, ios);
  }
}
