// What the checks make of a host, told by the heartbeats it sends: their flags,
// their numbers, and the ones that never came.
module Heartbeats {
  import opened Models
  import opened StateMachines
  import opened Cycles
  import opened CheckPhase
  import opened Failover
  import opened CycleTheorems
  import opened TraceSafety
  import opened Runs
  import opened Histories

  // One cycle

  lemma DecidedByHeartbeat(h: Host, s: Streaks, env: Env)
    ensures
      var hb := env.heartbeat(h.id);
      var good := hb.Fresh? && hb.networkOk && hb.sshOk;
      var over := h.trafficThreshold > 0 && !hb.Missing? &&
        (hb.trafficIn > h.trafficThreshold || hb.trafficOut > h.trafficThreshold);
      var fails := if h.id in s.fail then s.fail[h.id] else 0;
      var successes := if h.id in s.recover then s.recover[h.id] else 0;
      var contact := if h.state == Dead then good && successes + 1 >= 2 else good || fails + 1 < 3;
      && ResultOf(h, s, env).reachable == contact
      && CheckedRow(h, s, env) ==
           h.(state := if !contact then Dead else if !over then Ready else if h.state == Dead then Dead else Full)
  {
  }

  // A host counts as in contact with a good heartbeat or before its third bad one
  // in a row; a Dead one only from its second good one on. In contact it is Full
  // if either number of a heartbeat, old or new, is over its threshold, and Ready
  // otherwise, but a Dead one over its threshold stays Dead; out of contact it is
  // Dead. The reachable ids are those of the hosts in contact.
  lemma CheckedByHeartbeat(w: World, env: Env, h: Host)
    requires ValidIds(w.db)
    ensures
      var hb := env.heartbeat(h.id);
      var good := hb.Fresh? && hb.networkOk && hb.sshOk;
      var over := h.trafficThreshold > 0 && !hb.Missing? &&
        (hb.trafficIn > h.trafficThreshold || hb.trafficOut > h.trafficThreshold);
      var fails := if h.id in w.streaks.fail then w.streaks.fail[h.id] else 0;
      var successes := if h.id in w.streaks.recover then w.streaks.recover[h.id] else 0;
      var contact := if h.state == Dead then good && successes + 1 >= 2 else good || fails + 1 < 3;
      h in w.db.hosts ==>
        && (h.id in ReachableIds(w.db.hosts, w.streaks, env) <==> contact)
        && FindHost(CheckedDb(w, env).hosts, h.id) == Some(h.(state :=
             if !contact then Dead else if !over then Ready else if h.state == Dead then Dead else Full))
  {
    hide *;
    if h in w.db.hosts {
      DecidedByHeartbeat(h, w.streaks, env);
      RowChecked(w, env, h);
      ReachedByResult(w.db.hosts, w.streaks, env, h);
    }
  }

  lemma RowChecked(w: World, env: Env, h: Host)
    requires ValidIds(w.db) && h in w.db.hosts
    ensures FindHost(CheckedDb(w, env).hosts, h.id) == Some(CheckedRow(h, w.streaks, env)) && DistinctIds(w.db.hosts)
  {
    hide CheckedDb, ResultOf;
    CheckedRows(w, env);
    var i :| 0 <= i < |w.db.hosts| && w.db.hosts[i] == h;
    FindHostIsRow(CheckedDb(w, env).hosts, i);
  }

  lemma ReachedByResult(hosts: seq<Host>, s: Streaks, env: Env, h: Host)
    requires DistinctIds(hosts) && h in hosts
    ensures h.id in ReachableIds(hosts, s, env) <==> ResultOf(h, s, env).reachable
  {
    hide ResultOf;
    var i :| 0 <= i < |hosts| && hosts[i] == h;
    assert ResultOf(hosts[i], s, env).reachable ==> hosts[i].id in ReachableIds(hosts, s, env);
  }

  // Whole runs

  // The heartbeats read for a host since the last start of the program: one for
  // every cycle in which it was in the table.
  ghost function Heard(w0: World, steps: seq<Step>, id: nat): seq<Heartbeat> {
    if |steps| == 0 then []
    else
      var before, step := steps[..|steps| - 1], steps[|steps| - 1];
      if step.Restart? || step.Crash? then []
      else if step.Poll? && exists h :: h in Reach(w0, before).db.hosts && h.id == id then
        Heard(w0, before, id) + [step.env.heartbeat(id)]
      else Heard(w0, before, id)
  }

  // A snapshot counts as a success exactly if its heartbeat is recent and reports
  // that both the network and SSH are up.
  lemma {:induction false} SnapshotsOfHeartbeats(w0: World, steps: seq<Step>, id: nat)
    ensures |History(w0, steps, id)| == |Heard(w0, steps, id)|
    ensures forall i :: 0 <= i < |Heard(w0, steps, id)| ==>
      (History(w0, steps, id)[i] <==> exists x, y :: Heard(w0, steps, id)[i] == Fresh(true, true, x, y))
  {
    if |steps| > 0 {
      var before := steps[..|steps| - 1];
      SnapshotsOfHeartbeats(w0, before, id);
      hide *;
      SnapshotStep(w0, steps, id);
      OneMoreSnapshot(History(w0, before, id), Heard(w0, before, id), History(w0, steps, id), Heard(w0, steps, id));
    }
  }

  // Both are cut back to nothing, or stay, or grow by one.
  lemma SnapshotStep(w0: World, steps: seq<Step>, id: nat)
    requires |steps| > 0
    ensures
      var before, step := steps[..|steps| - 1], steps[|steps| - 1];
      var history, heard := History(w0, steps, id), Heard(w0, steps, id);
      || (history == [] && heard == [])
      || (history == History(w0, before, id) && heard == Heard(w0, before, id))
      || (step.Poll? && heard == Heard(w0, before, id) + [step.env.heartbeat(id)]
          && history == History(w0, before, id) + [BaseReachable(step.env.heartbeat(id))])
  {
    hide Reach, BaseReachable;
  }

  lemma OneMoreSnapshot(history: seq<bool>, heard: seq<Heartbeat>, history': seq<bool>, heard': seq<Heartbeat>)
    requires |history| == |heard|
    requires forall i :: 0 <= i < |heard| ==> (history[i] <==> exists x, y :: heard[i] == Fresh(true, true, x, y))
    requires
      || (history' == [] && heard' == [])
      || (history' == history && heard' == heard)
      || (exists hb :: heard' == heard + [hb] && history' == history + [BaseReachable(hb)])
    ensures |history'| == |heard'|
    ensures forall i :: 0 <= i < |heard'| ==> (history'[i] <==> exists x, y :: heard'[i] == Fresh(true, true, x, y))
  {
    hide BaseReachable;
    if |heard'| > |heard| {
      SnapshotIs(heard'[|heard|]);
    }
  }

  lemma SnapshotIs(hb: Heartbeat)
    ensures BaseReachable(hb) <==> exists x, y :: hb == Fresh(true, true, x, y)
  {
    if BaseReachable(hb) {
      assert hb == Fresh(true, true, hb.trafficIn, hb.trafficOut);
    }
  }

  // The host's last three heartbeats decide whether one that is not Dead dies,
  // its last two whether a Dead one may come back, and the numbers of the last
  // one between Ready and Full.
  lemma LivesByHeartbeats(w0: World, steps: seq<Step>, env: Env, h: Host)
    requires Sound(w0) && w0.streaks == NO_STREAKS
    ensures
      var w := Reach(w0, steps);
      var heard := Heard(w0, steps + [Poll(env)], h.id);
      var n, hb := |heard|, env.heartbeat(h.id);
      var silent := n >= 3 && forall i :: n - 3 <= i < n ==>
        heard[i].Missing? || heard[i].Stale? || (heard[i].Fresh? && !(heard[i].networkOk && heard[i].sshOk));
      var back := n >= 2 && forall i :: n - 2 <= i < n ==> exists x, y :: heard[i] == Fresh(true, true, x, y);
      var over := h.trafficThreshold > 0 && !hb.Missing? &&
        (hb.trafficIn > h.trafficThreshold || hb.trafficOut > h.trafficThreshold);
      h in w.db.hosts ==>
        && n > 0 && heard[n - 1] == hb
        && FindHost(CheckedDb(w, env).hosts, h.id) == Some(h.(state :=
             if h.state == Dead then if back && !over then Ready else Dead
             else if silent then Dead else if over then Full else Ready))
  {
    hide *;
    var w := Reach(w0, steps);
    if h in w.db.hosts {
      RunKeepsSound(w0, steps);
      SoundParts(w);
      var all := steps + [Poll(env)];
      HeardLast(w0, steps, env, h);
      SnapshotsOfHeartbeats(w0, all, h.id);
      EndsByHeard(History(w0, all, h.id), Heard(w0, all, h.id));
      ExactHysteresis(w0, steps, env, h);
      CheckedByHeartbeat(w, env, h);
      RowChecked(w, env, h);
      OverByNumbers(h, w.streaks, env);
    }
  }

  lemma HeardLast(w0: World, steps: seq<Step>, env: Env, h: Host)
    ensures h in Reach(w0, steps).db.hosts ==>
      Heard(w0, steps + [Poll(env)], h.id) == Heard(w0, steps, h.id) + [env.heartbeat(h.id)]
  {
    hide Reach;
    var all := steps + [Poll(env)];
    assert all[..|all| - 1] == steps;
  }

  // What the end of a history says of the heartbeats.
  lemma EndsByHeard(history: seq<bool>, heard: seq<Heartbeat>)
    requires |history| == |heard|
    requires forall i :: 0 <= i < |heard| ==> (history[i] <==> exists x, y :: heard[i] == Fresh(true, true, x, y))
    ensures
      var n := |heard|;
      && (EndsWith(history, HOST_FAIL_THRESHOLD, false) <==> n >= 3 && forall i :: n - 3 <= i < n ==>
           heard[i].Missing? || heard[i].Stale? || (heard[i].Fresh? && !(heard[i].networkOk && heard[i].sshOk)))
      && (EndsWith(history, HOST_RECOVER_THRESHOLD, true) <==>
           n >= 2 && forall i :: n - 2 <= i < n ==> exists x, y :: heard[i] == Fresh(true, true, x, y))
  {
    forall i | 0 <= i < |heard|
      ensures history[i] <==>
        !(heard[i].Missing? || heard[i].Stale? || (heard[i].Fresh? && !(heard[i].networkOk && heard[i].sshOk)))
    {
      FreshByFlags(heard[i]);
    }
    var n := |heard|;
    if EndsWith(history, HOST_RECOVER_THRESHOLD, true) {
      forall i | n - 2 <= i < n ensures exists x, y :: heard[i] == Fresh(true, true, x, y) {
        assert history[i];
      }
    }
    if n >= 2 && forall i :: n - 2 <= i < n ==> exists x, y :: heard[i] == Fresh(true, true, x, y) {
      forall i | n - 2 <= i < n ensures history[i] {
        assert exists x, y :: heard[i] == Fresh(true, true, x, y);
      }
    }
  }

  lemma FreshByFlags(hb: Heartbeat)
    ensures (exists x, y :: hb == Fresh(true, true, x, y)) <==>
      !(hb.Missing? || hb.Stale? || (hb.Fresh? && !(hb.networkOk && hb.sshOk)))
  {
    if hb.Fresh? {
      assert hb == Fresh(hb.networkOk, hb.sshOk, hb.trafficIn, hb.trafficOut);
    }
  }

  lemma OverByNumbers(h: Host, s: Streaks, env: Env)
    ensures
      var hb := env.heartbeat(h.id);
      var over := h.trafficThreshold > 0 && !hb.Missing? &&
        (hb.trafficIn > h.trafficThreshold || hb.trafficOut > h.trafficThreshold);
      TrafficExceeded(h, ResultOf(h, s, env)) <==> over
  {
  }

  // A cycle disconnects the stored leader exactly if someone else is elected and
  // the leader is in contact.
  lemma DisconnectsInContact(w: World, env: Env, h: Host)
    requires ValidIds(w.db)
    ensures
      var hb := env.heartbeat(h.id);
      var good := hb.Fresh? && hb.networkOk && hb.sshOk;
      var fails := if h.id in w.streaks.fail then w.streaks.fail[h.id] else 0;
      var successes := if h.id in w.streaks.recover then w.streaks.recover[h.id] else 0;
      h in w.db.hosts && h.id == w.db.leader ==>
        (Disconnected(h.id) in CycleTrace(w, env) <==>
          && FirstElection(w, env).changed
          && if h.state == Dead then good && successes + 1 >= 2 else good || fails + 1 < 3)
  {
    hide *;
    if h in w.db.hosts && h.id == w.db.leader {
      CheckedByHeartbeat(w, env, h);
      DisconnectedExactly(w, env);
      DisconnectedIn(CycleTrace(w, env), h.id);
    }
  }

  lemma DisconnectedIn(t: seq<Effect>, id: nat)
    ensures id in Select(t, DisconnectedBy) <==> Disconnected(id) in t
  {
    hide Select;
    SelectedIn(t, DisconnectedBy, id);
  }
}
