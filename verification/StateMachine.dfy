// engine/statemachine.go: the transition matrix and what a health check asks of it.
module StateMachines {
  import opened Models
  import opened Storage

  const VALID_TRANSITIONS: map<HostState, seq<HostState>> := map[
    Ready := [Full, Dead],
    Full := [Ready, Dead],
    Dead := [Ready]
  ]

  predicate IsValidTransition(from: HostState, to: HostState) {
    from in VALID_TRANSITIONS && to in VALID_TRANSITIONS[from]
  }

  datatype CheckResult = CheckResult(reachable: bool, sshReachable: bool, trafficIn: int, trafficOut: int)

  // A request the matrix does not allow, like one for the current state, does nothing.
  function TransitionEffects(h: Host, to: HostState, cause: Cause): seq<Effect> {
    if h.state != to && IsValidTransition(h.state, to) then [StateChanged(h.id, h.state, to, cause)] else []
  }

  predicate TrafficExceeded(h: Host, r: CheckResult) {
    h.trafficThreshold > 0 && (if r.trafficIn > r.trafficOut then r.trafficIn else r.trafficOut) > h.trafficThreshold
  }

  // The state a check result asks for, if it asks for one. A Dead host over its
  // threshold asks for Full, which the matrix refuses.
  function RequestedState(h: Host, r: CheckResult): Option<HostState> {
    if !r.reachable || !r.sshReachable then
      if h.state != Dead then Some(Dead) else None
    else match h.state
      case Ready => if TrafficExceeded(h, r) then Some(Full) else None
      case Full => if !TrafficExceeded(h, r) then Some(Ready) else None
      case Dead => if !TrafficExceeded(h, r) then Some(Ready) else Some(Full)
  }

  function CheckEffects(h: Host, r: CheckResult): seq<Effect> {
    match RequestedState(h, r)
    case None => []
    case Some(to) => TransitionEffects(h, to, HealthCheck)
  }

  // The state a check leaves a host in, told without the request: losing
  // contact always kills, and a Dead host over its threshold stays Dead.
  function StateAfterCheck(h: Host, r: CheckResult): HostState {
    if !r.reachable || !r.sshReachable then Dead
    else if !TrafficExceeded(h, r) then Ready
    else if h.state == Dead then Dead
    else Full
  }

  lemma CheckOutcome(h: Host, r: CheckResult)
    ensures RowAfterAll(CheckEffects(h, r), h) == h.(state := StateAfterCheck(h, r))
    ensures
      var over := h.trafficThreshold > 0 && (r.trafficIn > h.trafficThreshold || r.trafficOut > h.trafficThreshold);
      StateAfterCheck(h, r) ==
        if !(r.reachable && r.sshReachable) then Dead
        else if !over then Ready else if h.state == Dead then Dead else Full
    ensures forall e :: e in CheckEffects(h, r) ==>
      e == StateChanged(h.id, h.state, StateAfterCheck(h, r), HealthCheck) && h.state != StateAfterCheck(h, r)
    ensures h.state != StateAfterCheck(h, r) ==> |CheckEffects(h, r)| == 1
    ensures |CheckEffects(h, r)| <= 1
  {
    var t := CheckEffects(h, r);
    if |t| == 1 {
      assert t[..0] == [];
    }
  }

  // The one request the matrix refuses.
  lemma RefusedExactly(h: Host, r: CheckResult)
    ensures
      var over := h.trafficThreshold > 0 && (r.trafficIn > h.trafficThreshold || r.trafficOut > h.trafficThreshold);
      var request := RequestedState(h, r);
      request.Some? && h.state != request.value && TransitionEffects(h, request.value, HealthCheck) == [] <==>
        h.state == Dead && r.reachable && r.sshReachable && over
  {
  }

  class StateMachine {
    constructor () {}

    method Transition(db: Store, hostId: nat, newState: HostState, cause: Cause) returns (ok: bool)
      modifies db
      ensures
        var row := FindHost(old(db.hosts), hostId);
        var t := if row.Some? then TransitionEffects(row.value, newState, cause) else [];
        Wrote(db, t)
        && (ok <==> row.Some? && (row.value.state == newState || t != []))
    {
      ReplayNothing(db.Contents());
      var row := FindHost(db.hosts, hostId);
      if row.None? {
        return false;
      }
      if row.value.state == newState {
        return true;
      }
      if !IsValidTransition(row.value.state, newState) {
        return false;
      }
      db.Emit(StateChanged(hostId, row.value.state, newState, cause));
      return true;
    }

    // `host` is the caller's snapshot of the row; the transition it leads to is
    // judged by the row as it is now. With a current snapshot the one request
    // refused is that of a Dead host, in contact again, over its threshold.
    method ApplyCheckResult(db: Store, host: Host, result: CheckResult) returns (ok: bool)
      modifies db
      ensures
        var row := FindHost(old(db.hosts), host.id);
        var request := RequestedState(host, result);
        var t := if row.None? || request.None? then [] else TransitionEffects(row.value, request.value, HealthCheck);
        Wrote(db, t)
        && (ok <==> request.None? || (row.Some? && (row.value.state == request.value || t != [])))
      ensures
        var over := host.trafficThreshold > 0
          && (result.trafficIn > host.trafficThreshold || result.trafficOut > host.trafficThreshold);
        FindHost(old(db.hosts), host.id) == Some(host) ==>
          && Wrote(db, CheckEffects(host, result))
          && (!ok <==> host.state == Dead && result.reachable && result.sshReachable && over)
    {
      RefusedExactly(host, result);
      hide IsValidTransition, TransitionEffects, FindHost, Replay;
      ReplayNothing(db.Contents());
      if !result.reachable || !result.sshReachable {
        if host.state != Dead {
          ok := Transition(db, host.id, Dead, HealthCheck);
          return;
        }
        return true;
      }
      var trafficExceeded := TrafficExceeded(host, result);
      match host.state {
        case Ready =>
          if trafficExceeded {
            ok := Transition(db, host.id, Full, HealthCheck);
            return;
          }
        case Full =>
          if !trafficExceeded {
            ok := Transition(db, host.id, Ready, HealthCheck);
            return;
          }
        case Dead =>
          if !trafficExceeded {
            ok := Transition(db, host.id, Ready, HealthCheck);
            return;
          }
          ok := Transition(db, host.id, Full, HealthCheck);
          return;
      }
      return true;
    }
  }
}
