// A host that cannot be connected but keeps its heartbeats: what it does to the
// pool when it has the least priority.
module Thrashing {
  import opened Text
  import opened Models
  import opened Cycles
  import opened CheckPhase
  import opened Failover
  import opened CycleTheorems
  import opened TraceSafety
  import opened Runs

  // The cycle cuts its leader off only to commit it again.
  ghost predicate Recommits(t: seq<Effect>, leader: nat) {
    Disconnected(leader) in t && LeaderStored(leader) in t
  }

  lemma RecommitsBySelect(t: seq<Effect>, leader: nat)
    ensures Recommits(t, leader) <==> leader in Select(t, DisconnectedBy) && leader in Select(t, StoredBy)
  {
    SelectedIn(t, DisconnectedBy, leader);
    SelectedIn(t, StoredBy, leader);
    assert forall e :: DisconnectedBy(e) == Some(leader) <==> e == Disconnected(leader);
    assert forall e :: StoredBy(e) == Some(leader) <==> e == LeaderStored(leader);
  }

  // Exactly when a cycle does so: when someone else is elected first, and in the
  // walk that follows the first host that connects is the stored leader.
  lemma RecommitsExactly(w: World, env: Env) returns (order: seq<Host>)
    requires ValidIds(w.db)
    ensures FirstElection(w, env).changed ==> PriorityOrder(order, CheckedDb(w, env).hosts)
    ensures Recommits(CycleTrace(w, env), w.db.leader) <==>
      FirstElection(w, env).changed && ConnectsFirst(order, env, w.db.leader)
  {
    hide *;
    order := CycleWalks(w, env);
    RecommitsBySelect(CycleTrace(w, env), w.db.leader);
    DisconnectedExactly(w, env);
    if FirstElection(w, env).changed {
      CommittedByWalk(order, env, ReportOf(CycleTrace(w, env)), CycleTrace(w, env), w.db.leader);
      if ConnectsFirst(order, env, w.db.leader) {
        var h := FirstToConnect(order, CheckedDb(w, env).hosts, env, w.db.leader);
        ReadyIsReachable(w, env, h);
      }
    }
  }

  // The first host of the order that connects, within the attempts there are.
  predicate ConnectsFirst(order: seq<Host>, env: Env, id: nat) {
    var k := FailuresFirst(order, env, 0);
    k < Budget(order, 0) && k < |order| && order[k].id == id
  }

  lemma CommittedByWalk(order: seq<Host>, env: Env, r: Report, t: seq<Effect>, id: nat)
    requires r == ReportOf(t) == ReportAt(Ids(order), FailuresFirst(order, env, 0), Budget(order, 0))
    ensures id in Select(t, StoredBy) <==> ConnectsFirst(order, env, id)
  {
    hide FailuresFirst, Select, Budget;
  }

  lemma FirstToConnect(order: seq<Host>, hosts: seq<Host>, env: Env, id: nat) returns (h: Host)
    requires PriorityOrder(order, hosts) && ConnectsFirst(order, env, id)
    ensures h in hosts && h.state == Ready && h.id == id && FindHost(hosts, id).Some?
  {
    hide FailuresFirst, AscendingPriority, DistinctIds;
    h := order[FailuresFirst(order, env, 0)];
    assert h in order;
  }

  // Settings that no cycle changes for a host it does not blank.
  predicate SameSettings(h: Host, was: Host) {
    h.id == was.id && h.priority == was.priority && h.trafficThreshold == was.trafficThreshold
      && h.preCommand == was.preCommand
  }

  // Alive, or one good snapshot short of being alive again.
  predicate NearlyAlive(w: World, h: Host) {
    h.state == Dead ==> Streak(w.streaks.recover, h.id) >= 1
  }

  ghost predicate HasNearly(w: World, was: Host) {
    var row := FindHost(w.db.hosts, was.id);
    row.Some? && SameSettings(row.value, was) && NearlyAlive(w, row.value)
  }

  // The leader is g, second by priority; b has the least, and a connect command.
  ghost predicate Unsettled(w: World, b: Host, g: Host) {
    && ValidIds(w.db) && w.db.leader == g.id
    && HasNearly(w, b) && HasNearly(w, g)
    && b.priority < g.priority && TrimSpace(b.preCommand) != ""
    && forall h :: h in w.db.hosts && h.id != b.id && h.id != g.id ==> g.priority < h.priority
  }

  predicate Beats(h: Host, env: Env) {
    var hb := env.heartbeat(h.id);
    && BaseReachable(hb)
    && (h.trafficThreshold > 0 ==> hb.trafficIn <= h.trafficThreshold && hb.trafficOut <= h.trafficThreshold)
  }

  // Both send good heartbeats; the first connect of the cycle fails, the second
  // does not.
  predicate Adverse(env: Env, b: Host, g: Host) {
    Beats(b, env) && Beats(g, env) && env.connectExit(0) != 0 && env.connectExit(1) == 0
  }

  lemma ComesAlive(w: World, env: Env, h: Host)
    requires NearlyAlive(w, h) && Beats(h, env)
    ensures CheckedRow(h, w.streaks, env) == h.(state := Ready)
    ensures RecoverAfter(w.streaks, h.id, env) >= 1
  {
  }

  // What one cycle does.
  ghost predicate Thrashes(t: seq<Effect>, b: Host, g: Host) {
    && ReportOf(t) == Report([b.id, g.id], [b.id], [g.id])
    && Select(t, DisconnectedBy) == [g.id]
  }

  lemma FindNearly(w: World, env: Env, was: Host) returns (i: nat, h: Host)
    requires ValidIds(w.db) && HasNearly(w, was) && Beats(was, env)
    ensures i < |w.db.hosts| && w.db.hosts[i] == h && SameSettings(h, was) && NearlyAlive(w, h)
    ensures CheckedRow(h, w.streaks, env) == h.(state := Ready)
    ensures |CheckedDb(w, env).hosts| == |w.db.hosts| && CheckedDb(w, env).hosts[i] == h.(state := Ready)
    ensures Streak(CountHosts(w.streaks, w.db.hosts, env).recover, h.id) >= 1
  {
    hide CheckedDb, CheckedRow, CountHosts, RecoverAfter;
    h := FindHost(w.db.hosts, was.id).value;
    i :| 0 <= i < |w.db.hosts| && w.db.hosts[i] == h;
    ComesAlive(w, env, h);
    CheckedRows(w, env);
    CountHostsAt(w.streaks, w.db.hosts, env, h);
  }

  // The checked table has b and then g in front of all other Ready hosts.
  ghost predicate InFront(hosts: seq<Host>, b: Host, g: Host) {
    && b in hosts && g in hosts && b.state == Ready && g.state == Ready && b.priority < g.priority
    && forall h :: h in hosts && h != b && h != g ==> g.priority < h.priority
  }

  lemma OrderInFront(order: seq<Host>, hosts: seq<Host>, b: Host, g: Host)
    requires PriorityOrder(order, hosts) && InFront(hosts, b, g)
    ensures |order| >= 2 && order[0] == b && order[1] == g
  {
    var i :| 0 <= i < |order| && order[i] == b;
    var j :| 0 <= j < |order| && order[j] == g;
    assert order[0] in order;
    assert order[0].priority <= order[i].priority;
    assert order[1] in order;
    assert order[1].priority <= order[j].priority;
  }

  lemma FailsOnce(order: seq<Host>, env: Env)
    requires |order| >= 2 && TrimSpace(order[0].preCommand) != ""
    requires env.connectExit(0) != 0 && env.connectExit(1) == 0
    ensures FailuresFirst(order, env, 0) == 1
    ensures ReportAt(Ids(order), FailuresFirst(order, env, 0), Budget(order, 0)) ==
      Report([order[0].id, order[1].id], [order[0].id], [order[1].id])
  {
    FailuresFirstIsLeast(order, env, 0);
    hide FailuresFirst;
    var k := FailuresFirst(order, env, 0);
    assert k < 2 || ConnectExit(order[1], env, 0 + 1) != 0;
    assert Ids(order)[..2] == [order[0].id, order[1].id] && Ids(order)[..1] == [order[0].id];
  }

  lemma {:induction false} CommandKept(t: seq<Effect>, h: Host)
    requires CommandsBlanked(h.id) !in t
    ensures RowAfterAll(t, h).preCommand == h.preCommand
  {
    if |t| > 0 {
      assert t[|t| - 1] in t && forall e :: e in t[..|t| - 1] ==> e in t;
      CommandKept(t[..|t| - 1], h);
    }
  }

  lemma ElectsFront(w: World, env: Env, b: Host, g: Host)
    requires ValidIds(w.db) && w.db.leader != b.id && InFront(CheckedDb(w, env).hosts, b, g)
    ensures FirstElection(w, env).changed
  {
    hide CheckedDb;
    CheckedRows(w, env);
  }

  // One cycle from an unsettled world: b is tried, fails and dies, g is
  // disconnected, tried and committed again.
  lemma CycleThrashes(w: World, env: Env, b: Host, g: Host)
    requires Unsettled(w, b, g) && Adverse(env, b, g)
    ensures Thrashes(CycleTrace(w, env), b, g)
    ensures Unsettled(Cycle(w, env), b, g)
  {
    hide *;
    UnsettledParts(w, env, b, g);
    var i, hb := FindNearly(w, env, b);
    var j, hg := FindNearly(w, env, g);
    CheckedRows(w, env);
    var cb, cg := CheckedDb(w, env).hosts[i], CheckedDb(w, env).hosts[j];
    SettingsKept(hb, b, cb);
    SettingsKept(hg, g, cg);
    CheckedFront(w, env, b, g, i, j);
    ElectsFront(w, env, cb, cg);
    var order := CycleWalks(w, env);
    OrderInFront(order, CheckedDb(w, env).hosts, cb, cg);
    FailsOnce(order, env);
    ThrashReport(w, env, b, g, cg);
    CommittedIs(CheckedDb(w, env), Cycle(w, env).db, ReportOf(CycleTrace(w, env)), g.id);
    StaysUnsettled(w, env, b, g, i, j);
  }

  lemma SettingsKept(h: Host, was: Host, checked: Host)
    requires SameSettings(h, was) && checked == h.(state := Ready)
    ensures SameSettings(checked, was) && checked.state == Ready
    ensures h.id == was.id && checked.id == was.id && checked.preCommand == was.preCommand
  {
  }

  lemma UnsettledParts(w: World, env: Env, b: Host, g: Host)
    requires Unsettled(w, b, g) && Adverse(env, b, g)
    ensures ValidIds(w.db) && w.db.leader == g.id && b.id != g.id && TrimSpace(b.preCommand) != ""
    ensures HasNearly(w, b) && HasNearly(w, g) && Beats(b, env) && Beats(g, env)
    ensures env.connectExit(0) != 0 && env.connectExit(1) == 0
  {
    hide ValidIds, TrimSpace;
  }

  lemma CheckedFront(w: World, env: Env, b: Host, g: Host, i: nat, j: nat)
    requires Unsettled(w, b, g) && i < |w.db.hosts| && j < |w.db.hosts|
    requires w.db.hosts[i].id == b.id && w.db.hosts[j].id == g.id
    requires |CheckedDb(w, env).hosts| == |w.db.hosts|
    requires forall k :: 0 <= k < |w.db.hosts| ==>
      CheckedDb(w, env).hosts[k] == CheckedRow(w.db.hosts[k], w.streaks, env)
    requires SameSettings(CheckedDb(w, env).hosts[i], b) && CheckedDb(w, env).hosts[i].state == Ready
    requires SameSettings(CheckedDb(w, env).hosts[j], g) && CheckedDb(w, env).hosts[j].state == Ready
    ensures InFront(CheckedDb(w, env).hosts, CheckedDb(w, env).hosts[i], CheckedDb(w, env).hosts[j])
  {
    hide CheckedDb, ResultOf;
    var hosts := CheckedDb(w, env).hosts;
    forall h | h in hosts && h != hosts[i] && h != hosts[j] ensures g.priority < h.priority {
      var k :| 0 <= k < |hosts| && hosts[k] == h;
      assert k != i && k != j && w.db.hosts[k] in w.db.hosts;
      assert w.db.hosts[k].id != w.db.hosts[i].id && w.db.hosts[k].id != w.db.hosts[j].id;
    }
  }

  lemma ThrashReport(w: World, env: Env, b: Host, g: Host, cg: Host)
    requires ValidIds(w.db) && w.db.leader == g.id && cg.id == g.id && cg.state == Ready
    ensures
      && FirstElection(w, env).changed && cg in CheckedDb(w, env).hosts
      && ReportOf(CycleTrace(w, env)) == Report([b.id, g.id], [b.id], [g.id])
      ==> Thrashes(CycleTrace(w, env), b, g)
  {
    hide CheckedDb, CycleTrace, ReachableIds, ReportOf, Select, FirstElection;
    if FirstElection(w, env).changed && cg in CheckedDb(w, env).hosts {
      ReadyIsReachable(w, env, cg);
      DisconnectedExactly(w, env);
      assert FindHost(CheckedDb(w, env).hosts, g.id).Some?;
    }
  }

  // The next cycle finds the same rows, streaks and leader.
  lemma StaysUnsettled(w: World, env: Env, b: Host, g: Host, i: nat, j: nat)
    requires Unsettled(w, b, g) && i < |w.db.hosts| && j < |w.db.hosts|
    requires SameSettings(w.db.hosts[i], b) && SameSettings(w.db.hosts[j], g)
    ensures
      && Streak(CountHosts(w.streaks, w.db.hosts, env).recover, b.id) >= 1
      && Streak(CountHosts(w.streaks, w.db.hosts, env).recover, g.id) >= 1
      && |CheckedDb(w, env).hosts| == |w.db.hosts|
      && CheckedDb(w, env).hosts[j] == w.db.hosts[j].(state := Ready)
      && Cycle(w, env).db.leader == g.id
      ==> Unsettled(Cycle(w, env), b, g)
  {
    hide *;
    var t, after, counted := CycleTrace(w, env), Cycle(w, env), CountHosts(w.streaks, w.db.hosts, env);
    UnsettledLeader(w, b, g, w.db.hosts[j]);
    CheckedRows(w, env);
    if Streak(counted.recover, b.id) >= 1 && Streak(counted.recover, g.id) >= 1
       && CheckedDb(w, env).hosts[j] == w.db.hosts[j].(state := Ready) && after.db.leader == g.id {
      BlanksNobody(w, env, j);
      CommandKept(t, w.db.hosts[i]);
      CommandKept(t, w.db.hosts[j]);
      CycleDb(w, env);
      CycleStreaks(w, env);
      RowsOf(t, w.db);
      NearlyAgain(w, after, t, b, i);
      NearlyAgain(w, after, t, g, j);
      UnsettledIf(w, after, b, g);
    }
  }

  lemma UnsettledLeader(w: World, b: Host, g: Host, h: Host)
    requires Unsettled(w, b, g) && SameSettings(h, g)
    ensures ValidIds(w.db) && w.db.leader == h.id
  {
    hide ValidIds, HasNearly, TrimSpace;
  }

  // No commands are blanked when the stored leader is Ready after the checks.
  lemma BlanksNobody(w: World, env: Env, j: nat)
    requires ValidIds(w.db) && j < |w.db.hosts| && w.db.leader == w.db.hosts[j].id
    requires |CheckedDb(w, env).hosts| == |w.db.hosts| && CheckedDb(w, env).hosts[j] == w.db.hosts[j].(state := Ready)
    ensures forall id :: CommandsBlanked(id) !in CycleTrace(w, env)
  {
    hide CycleTrace, CheckedDb, ReachableIds;
    DisconnectSafety(w, env);
    CheckedRows(w, env);
    FindHostIsRow(CheckedDb(w, env).hosts, j);
  }

  ghost predicate SameRanks(before: seq<Host>, after: seq<Host>) {
    |after| == |before| && forall k :: 0 <= k < |before| ==>
      after[k].id == before[k].id && after[k].priority == before[k].priority
  }

  lemma RowsOf(t: seq<Effect>, db: Db)
    requires ValidIds(db)
    ensures ValidIds(Replay(t, db)) && |Replay(t, db).hosts| == |db.hosts|
    ensures forall k :: 0 <= k < |db.hosts| ==> Replay(t, db).hosts[k] == RowAfterAll(t, db.hosts[k])
    ensures SameRanks(db.hosts, Replay(t, db).hosts)
  {
    hide RowAfterAll;
  }

  lemma NearlyAgain(w: World, after: World, t: seq<Effect>, was: Host, i: nat)
    requires i < |w.db.hosts| && |after.db.hosts| == |w.db.hosts| && ValidIds(after.db)
    requires after.db.hosts[i] == RowAfterAll(t, w.db.hosts[i]) && SameSettings(w.db.hosts[i], was)
    requires RowAfterAll(t, w.db.hosts[i]).preCommand == w.db.hosts[i].preCommand
    requires Streak(after.streaks.recover, was.id) >= 1
    ensures HasNearly(after, was)
  {
    hide RowAfterAll;
    FindHostIsRow(after.db.hosts, i);
  }

  lemma UnsettledIf(w: World, after: World, b: Host, g: Host)
    requires Unsettled(w, b, g) && ValidIds(after.db) && after.db.leader == g.id
    requires HasNearly(after, b) && HasNearly(after, g)
    requires SameRanks(w.db.hosts, after.db.hosts)
    ensures Unsettled(after, b, g)
  {
    hide HasNearly, TrimSpace, ValidIds;
    forall h | h in after.db.hosts && h.id != b.id && h.id != g.id ensures g.priority < h.priority {
      var k :| 0 <= k < |after.db.hosts| && after.db.hosts[k] == h;
      assert w.db.hosts[k] in w.db.hosts;
    }
  }

  lemma CommittedIs(before: Db, after: Db, report: Report, id: nat)
    requires FinalRows(before, after, report) && report.committed == [id]
    ensures after.leader == id
  {
  }

  // Runs

  function Polls(envs: seq<Env>): seq<Step> {
    seq(|envs|, i requires 0 <= i < |envs| => Poll(envs[i]))
  }

  function Again(ids: seq<nat>, n: nat): seq<nat> {
    if n == 0 then [] else Again(ids, n - 1) + ids
  }

  // n cycles in a row, after which nothing is settled.
  ghost predicate ThrashesTimes(t: seq<Effect>, n: nat, b: Host, g: Host) {
    && ReportOf(t) == Report(Again([b.id, g.id], n), Again([b.id], n), Again([g.id], n))
    && Select(t, DisconnectedBy) == Again([g.id], n)
  }

  lemma ThrashesOnceMore(t: seq<Effect>, u: seq<Effect>, n: nat, b: Host, g: Host)
    requires ThrashesTimes(t, n, b, g) && Thrashes(u, b, g)
    ensures ThrashesTimes(t + u, n + 1, b, g)
  {
    hide Select;
    SelectConcat(t, u, TriedBy);
    SelectConcat(t, u, KilledByConnect);
    SelectConcat(t, u, StoredBy);
    SelectConcat(t, u, DisconnectedBy);
  }

  lemma NoThrashYet(w: World, b: Host, g: Host)
    ensures Reach(w, Polls([])) == w && ThrashesTimes(RunTrace(w, Polls([])), 0, b, g)
  {
  }

  lemma PollsStep(w: World, envs: seq<Env>)
    requires |envs| > 0
    ensures
      var before, env := envs[..|envs| - 1], envs[|envs| - 1];
      && Reach(w, Polls(envs)) == Cycle(Reach(w, Polls(before)), env)
      && RunTrace(w, Polls(envs)) == RunTrace(w, Polls(before)) + CycleTrace(Reach(w, Polls(before)), env)
  {
    hide Cycle, CycleTrace;
    assert Polls(envs)[..|envs| - 1] == Polls(envs[..|envs| - 1]);
  }

  // A host of least priority that keeps its heartbeats but can never be connected
  // is never given up: over any number of cycles the working leader g is, in each
  // of them, disconnected, connected and committed again, and b killed again.
  lemma {:induction false} RunThrashes(w: World, envs: seq<Env>, b: Host, g: Host)
    requires Unsettled(w, b, g) && forall i :: 0 <= i < |envs| ==> Adverse(envs[i], b, g)
    ensures ThrashesTimes(RunTrace(w, Polls(envs)), |envs|, b, g)
    ensures Unsettled(Reach(w, Polls(envs)), b, g)
  {
    hide *;
    if |envs| == 0 {
      NoThrashYet(w, b, g);
    } else {
      var before, env := envs[..|envs| - 1], envs[|envs| - 1];
      RunThrashes(w, before, b, g);
      PollsStep(w, envs);
      CycleThrashes(Reach(w, Polls(before)), env, b, g);
      ThrashesOnceMore(RunTrace(w, Polls(before)), CycleTrace(Reach(w, Polls(before)), env), |before|, b, g);
    }
  }
}
