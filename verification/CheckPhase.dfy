// What the check phase of one cycle does to each host.
module CheckPhase {
  import opened Models
  import opened StateMachines
  import opened Cycles
  import opened Pollers

  // The row of host h once the check phase is over.
  function CheckedRow(h: Host, s: Streaks, env: Env): Host {
    h.(state := StateAfterCheck(h, ResultOf(h, s, env)))
  }

  lemma {:induction false} CheckTraceRow(hosts: seq<Host>, s: Streaks, env: Env, i: nat)
    requires DistinctIds(hosts) && i < |hosts|
    ensures RowAfterAll(CheckTrace(hosts, s, env), hosts[i]) == CheckedRow(hosts[i], s, env)
  {
    var n := |hosts| - 1;
    var t := CheckTrace(hosts[..n], s, env);
    var u := CheckEffects(hosts[n], ResultOf(hosts[n], s, env));
    RowAfterConcat(t, u, hosts[i]);
    if i == n {
      CheckTraceFrame(hosts[..n], s, env, hosts[n]);
      CheckOutcome(hosts[n], ResultOf(hosts[n], s, env));
    } else {
      CheckTraceRow(hosts[..n], s, env, i);
      CheckEffectsFrame(hosts[n], ResultOf(hosts[n], s, env), CheckedRow(hosts[i], s, env));
    }
  }

  // The check phase changes nothing but states, each decided by its own host.
  lemma CheckedRows(w: World, env: Env)
    requires ValidIds(w.db)
    ensures |CheckedDb(w, env).hosts| == |w.db.hosts|
    ensures forall i :: 0 <= i < |w.db.hosts| ==>
      CheckedDb(w, env).hosts[i] == CheckedRow(w.db.hosts[i], w.streaks, env)
    ensures CheckedDb(w, env) == w.db.(hosts := CheckedDb(w, env).hosts)
    ensures ValidIds(CheckedDb(w, env))
  {
    var hosts := w.db.hosts;
    forall i | 0 <= i < |hosts|
      ensures CheckedDb(w, env).hosts[i] == CheckedRow(hosts[i], w.streaks, env)
    {
      CheckTraceRow(hosts, w.streaks, env, i);
    }
    CheckTraceKind(hosts, w.streaks, env);
    NoLeaderStored(CheckTrace(hosts, w.streaks, env), w.db.leader);
  }

  lemma {:induction false} NoLeaderStored(t: seq<Effect>, leader: nat)
    requires forall e :: e in t ==> !e.LeaderStored?
    ensures LeaderAfterAll(t, leader) == leader
  {
    if |t| > 0 {
      assert t[|t| - 1] in t;
      NoLeaderStored(t[..|t| - 1], leader);
    }
  }

  // Its effects are exactly the changes of state it makes.
  lemma {:induction false} CheckTraceKind(hosts: seq<Host>, s: Streaks, env: Env)
    ensures forall e :: e in CheckTrace(hosts, s, env) <==>
      exists h :: h in hosts && h.state != CheckedRow(h, s, env).state
        && e == StateChanged(h.id, h.state, CheckedRow(h, s, env).state, HealthCheck)
  {
    if |hosts| > 0 {
      var n := |hosts| - 1;
      assert hosts == hosts[..n] + [hosts[n]];
      CheckTraceKind(hosts[..n], s, env);
      CheckOutcome(hosts[n], ResultOf(hosts[n], s, env));
      var u := CheckEffects(hosts[n], ResultOf(hosts[n], s, env));
      assert forall e :: e in CheckTrace(hosts, s, env) <==> e in CheckTrace(hosts[..n], s, env) || e in u;
      if |u| > 0 {
        assert u[0] in u;
      }
    }
  }

  // The streaks of a host after the cycle.
  lemma {:induction false} CountHostsAt(s: Streaks, hosts: seq<Host>, env: Env, h: Host)
    requires DistinctIds(hosts) && h in hosts
    ensures Streak(CountHosts(s, hosts, env).fail, h.id) == FailAfter(s, h.id, env)
    ensures Streak(CountHosts(s, hosts, env).recover, h.id) == RecoverAfter(s, h.id, env)
  {
    var n := |hosts| - 1;
    var i :| 0 <= i < |hosts| && hosts[i] == h;
    if i == n {
      CountHostsFrame(s, hosts[..n], env, h.id);
    } else {
      assert h == hosts[..n][i];
      CountHostsAt(s, hosts[..n], env, h);
    }
  }

  // Every host the check phase leaves Ready is one the cycle treats as reachable.
  lemma ReadyIsReachable(w: World, env: Env, h: Host)
    requires ValidIds(w.db) && h in CheckedDb(w, env).hosts && h.state == Ready
    ensures h.id in ReachableIds(w.db.hosts, w.streaks, env)
  {
    CheckedRows(w, env);
    var i :| 0 <= i < |w.db.hosts| && CheckedDb(w, env).hosts[i] == h;
    assert ResultOf(w.db.hosts[i], w.streaks, env).reachable;
  }
}
