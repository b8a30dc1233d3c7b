/** The connection state machine: the table of allowed transitions and the locked
    store that applies it. `Transition` and `SetContext` check the table, `Fail` does not. */
module ConnState {
  datatype State = Stopped | Initializing | Ready | Starting | Connecting | Connected
                 | Reconnecting | Stopping | Error

  predicate CanTransition(from: State, to: State) {
    match from
    case Stopped => to == Starting
    case Initializing => to == Ready || to == Error
    case Ready => to == Starting
    case Starting => to == Connecting || to == Error || to == Stopping
    case Connecting => to == Connected || to == Reconnecting || to == Error || to == Stopping
    case Connected => to == Reconnecting || to == Stopping || to == Error
    case Reconnecting => to == Connected || to == Error || to == Stopping
    case Stopping => to == Starting || to == Stopped || to == Error
    case Error => to == Starting || to == Stopped
  }

  /** The table from the other end: what each state can be reached from. */
  lemma EdgesInto(from: State, to: State)
    ensures CanTransition(from, to) <==>
            match to
            case Stopped => from == Stopping || from == Error
            case Initializing => false
            case Ready => from == Initializing
            case Starting => from == Stopped || from == Ready || from == Stopping || from == Error
            case Connecting => from == Starting
            case Connected => from == Connecting || from == Reconnecting
            case Reconnecting => from == Connecting || from == Connected
            case Stopping => from != Stopped && from != Initializing && from != Ready && from != Stopping && from != Error
            case Error => from != Stopped && from != Ready && from != Error
  {
  }

  /** What a checked write accepts: the state there is, or an edge of the table. */
  predicate MayMove(from: State, to: State) {
    from == to || CanTransition(from, to)
  }

  ghost predicate LegalPath(path: seq<State>) {
    forall i | 0 <= i < |path| - 1 :: MayMove(path[i], path[i + 1])
  }

  /** A store born STOPPED never becomes INITIALIZING or READY by legal writes: the two states
      the table offers for start-up are dead. */
  lemma {:induction false} StartupStatesAreDead(path: seq<State>, i: nat)
    requires LegalPath(path) && i < |path| && path[0] == Stopped
    ensures path[i] != Initializing && path[i] != Ready
  {
    if i > 0 {
      StartupStatesAreDead(path, i - 1);
    }
  }

  /** No legal path leads from STOPPED to CONNECTED or RECONNECTING without having been in STARTING and after
      that in CONNECTING. */
  lemma {:induction false} ConnectedAfterDialling(path: seq<State>, i: nat)
    requires LegalPath(path) && i < |path| && path[0] == Stopped
    ensures path[i] == Connecting ==> exists m | 0 <= m < i :: path[m] == Starting
    ensures path[i] == Connected || path[i] == Reconnecting ==>
              exists m, k | 0 <= m < k < i :: path[m] == Starting && path[k] == Connecting
  {
    if i > 0 {
      assert MayMove(path[i - 1], path[i]);
      ConnectedAfterDialling(path, i - 1);
    }
  }

  class StateStore {
    var state: State
    var nodeId: string
    var nodeName: string
    var mode: string
    var latency: int
    var errorCode: string
    var errorMessage: string
    /** Every state the store has been in, oldest first. */
    ghost var path: seq<State>

    ghost predicate Valid()
      reads this
    {
      path != [] && path[0] == Stopped && path[|path| - 1] == state
    }

    constructor ()
      ensures Valid() && state == Stopped && LegalPath(path)
      ensures nodeId == nodeName == mode == errorCode == errorMessage == "" && latency == 0
    {
      state, path, latency := Stopped, [Stopped], 0;
      nodeId, nodeName, mode, errorCode, errorMessage := "", "", "", "", "";
    }

    method Transition(to: State) returns (ok: bool)
      requires Valid()
      modifies this
      ensures Valid() && (old(LegalPath(path)) ==> LegalPath(path))
      ensures ok <==> MayMove(old(state), to)
      ensures state == (if ok then to else old(state))
      ensures (nodeId, nodeName, mode, latency) == old((nodeId, nodeName, mode, latency))
      ensures (errorCode, errorMessage) ==
              if state != old(state) && (to == Connected || to == Ready) then ("", "")
              else old((errorCode, errorMessage))
    {
      if state == to { return true; }
      if !CanTransition(state, to) { return false; }
      state, path := to, path + [to];
      if to == Connected || to == Ready {
        errorCode, errorMessage := "", "";
      }
      return true;
    }

    method SetContext(to: State, id: string, name: string, newMode: string) returns (ok: bool)
      requires Valid()
      modifies this
      ensures Valid() && (old(LegalPath(path)) ==> LegalPath(path))
      ensures ok <==> MayMove(old(state), to)
      ensures (state, nodeId, nodeName, mode) ==
              if ok then (to, id, name, newMode) else old((state, nodeId, nodeName, mode))
      ensures (latency, errorCode, errorMessage) == old((latency, errorCode, errorMessage))
    {
      if state != to && !CanTransition(state, to) { return false; }
      state, nodeId, nodeName, mode, path := to, id, name, newMode, path + [to];
      return true;
    }

    method SetLatency(ms: int)
      requires Valid()
      modifies this`latency
      ensures Valid() && latency == ms
    {
      latency := ms;
    }

    /** The unchecked write: it keeps the path legal exactly when the step was an edge anyway. */
    method Fail(to: State, code: string, message: string)
      requires Valid()
      modifies this
      ensures Valid() && state == to && errorCode == code && errorMessage == message
      ensures (nodeId, nodeName, mode, latency) == old((nodeId, nodeName, mode, latency))
      ensures old(LegalPath(path)) ==>
                (LegalPath(path) <==> MayMove(old(state), to))
    {
      ghost var before := path;
      state, errorCode, errorMessage, path := to, code, message, path + [to];
      assert path[|before| - 1] == before[|before| - 1] && path[|before|] == to;
    }
  }
}
