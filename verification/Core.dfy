/** The external proxy core: one child process, its status, and the processes of ours that the
    operating system still runs. */
module Core {
  import opened Prelude

  datatype CoreStatus = Stopped | Starting | Running | Error

  datatype Health = Healthy | LocalDead | UplinkDead

  /** `child` is the handle held by the adapter, `spawning` a process that a start in progress
      holds locally, `live` the processes of ours that still run. */
  datatype Core = Core(child: Option<nat>, spawning: Option<nat>, live: set<nat>,
                       status: CoreStatus, nextPid: nat)

  /** How far `start` gets before it waits for the inbound port. */
  datatype Spawn = NoBinary | SpawnFailed | Spawned

  /** What the wait for the inbound port ends with. */
  datatype Wakeup = Exited | NotReady | Up

  function Held(c: Core): set<nat> {
    (if c.child.Some? then {c.child.value} else {})
    + (if c.spawning.Some? then {c.spawning.value} else {})
  }

  /** Every process of ours that runs is one the adapter can still kill. */
  ghost predicate NoOrphan(c: Core) {
    c.live <= Held(c) && forall p | p in Held(c) :: p < c.nextPid
  }

  /** Up to the wait for the port; the error case leaves no process behind. */
  function BeginStart(c: Core, spawn: Spawn): Result<Core, Core> {
    if c.child.Some? then Err(c)
    else match spawn
      case NoBinary => Err(c)
      case SpawnFailed => Err(c.(status := Error))
      case Spawned => Ok(c.(status := Starting, spawning := Some(c.nextPid),
                            live := c.live + {c.nextPid}, nextPid := c.nextPid + 1))
  }

  /** After the wait: an exited child is noticed first, then a port that never opened. */
  function FinishStart(c: Core, w: Wakeup): Result<Core, Core>
    requires c.spawning.Some?
  {
    if w == Up then Ok(c.(child := c.spawning, spawning := None, status := Running))
    else Err(c.(spawning := None, status := Error, live := c.live - {c.spawning.value}))
  }

  function Start(c: Core, spawn: Spawn, w: Wakeup): Result<Core, Core> {
    match BeginStart(c, spawn)
    case Err(d) => Err(d)
    case Ok(d) => FinishStart(d, w)
  }

  function Stop(c: Core): Core {
    c.(child := None, status := CoreStatus.Stopped,
       live := if c.child.Some? then c.live - {c.child.value} else c.live)
  }

  function Check(c: Core, localOk: bool, tunnelOk: bool): Health {
    if c.status != Running || !localOk then LocalDead
    else if tunnelOk then Healthy else UplinkDead
  }

  /** A start ends with exactly one more held process or, when it fails, with none more; it never
      leaves an orphan, and status RUNNING means that the handle is held. */
  lemma StartLeavesNoOrphan(c: Core, spawn: Spawn, w: Wakeup)
    requires NoOrphan(c) && c.spawning.None? && (c.status == Running ==> c.child.Some?)
    ensures BeginStart(c, spawn).Ok? ==> BeginStart(c, spawn).value.status == Starting
    ensures match Start(c, spawn, w)
            case Ok(d) => NoOrphan(d) && c.child.None? && d.child == Some(c.nextPid)
                          && d.status == Running && d.live == c.live + {c.nextPid}
            case Err(d) => NoOrphan(d) && d.child == c.child && d.live == c.live
                           && d.spawning.None? && (d.status == Running ==> d.child.Some?)
  {
  }

  class ExternalCore {
    var child: Option<nat>
    var status: CoreStatus
    /** The processes of ours that run, as the operating system sees them. */
    var live: set<nat>
    var nextPid: nat

    ghost function Value(): Core
      reads this
    {
      Core(child, None, live, status, nextPid)
    }

    ghost predicate Valid()
      reads this
    {
      NoOrphan(Value()) && (status == Running ==> child.Some?)
    }

    constructor ()
      ensures Valid() && Value() == Core(None, None, {}, CoreStatus.Stopped, 0)
    {
      child, status, live, nextPid := None, CoreStatus.Stopped, {}, 0;
    }

    method StartCore(spawn: Spawn, w: Wakeup) returns (ok: bool)
      requires Valid()
      modifies this
      ensures Valid()
      ensures match Start(old(Value()), spawn, w)
              case Ok(d) => ok && Value() == d
              case Err(d) => !ok && Value() == d
      ensures !ok ==> live == old(live) && child == old(child)
    {
      if child.Some? || spawn == NoBinary { return false; }
      status := Starting;
      if spawn == SpawnFailed {
        status := Error;
        return false;
      }
      var pid := nextPid;
      nextPid, live := nextPid + 1, live + {pid};
      if w == Exited {
        live := live - {pid};
        status := Error;
        return false;
      }
      if w == NotReady {
        live := live - {pid};
        status := Error;
        return false;
      }
      child, status := Some(pid), Running;
      return true;
    }

    method StopCore()
      requires Valid()
      modifies this
      ensures Valid() && Value() == Stop(old(Value()))
      ensures live == {} && child.None?
    {
      if child.Some? {
        live := live - {child.value};
        child := None;
      }
      status := CoreStatus.Stopped;
    }

    /** `restart` never reports that a core is already running: it stops the old one first. */
    method Restart(spawn: Spawn, w: Wakeup) returns (ok: bool)
      requires Valid()
      modifies this
      ensures Valid()
      ensures ok <==> spawn == Spawned && w == Up
      ensures ok ==> child == Some(old(nextPid)) && live == {old(nextPid)} && status == Running
      ensures !ok ==> child.None? && live == {}
    {
      StopCore();
      ok := StartCore(spawn, w);
    }

    method HealthCheck(localOk: bool, tunnelOk: bool) returns (h: Health)
      requires Valid()
      ensures h == Check(Value(), localOk, tunnelOk)
      ensures h != LocalDead ==> child.Some?
    {
      if status != Running { return LocalDead; }
      if !localOk { return LocalDead; }
      if tunnelOk { return Healthy; }
      return UplinkDead;
    }
  }
}
