// What every polling cycle guarantees, whatever the heartbeats, exit codes, DNS
// answers and orders of equal priorities.
module CycleTheorems {
  import opened Models
  import opened StateMachines
  import opened Elections
  import opened Circuits
  import opened Cycles
  import opened Pollers
  import opened CheckPhase
  import opened Failover

  // The walk along the priority order, by position

  function ReportAt(ids: seq<nat>, k: nat, budget: nat): Report
    requires k <= |ids|
  {
    if k < budget && k < |ids| then Report(ids[..k + 1], ids[..k], [ids[k]]) else Report(ids[..k], ids[..k], [])
  }

  lemma ReportCons(id: nat, ids: seq<nat>, k: nat, budget: nat)
    requires k <= |ids|
    ensures
      var rest := ReportAt(ids, k, budget);
      ReportAt([id] + ids, k + 1, budget + 1) == Report([id] + rest.tried, [id] + rest.killed, rest.committed)
  {
    assert ([id] + ids)[..k + 1] == [id] + ids[..k];
    if k < |ids| {
      assert ([id] + ids)[..k + 2] == [id] + ids[..k + 1];
    }
  }

  lemma ReportAtStart(ids: seq<nat>, budget: nat)
    ensures budget == 0 ==> ReportAt(ids, 0, budget) == Report([], [], [])
    ensures budget > 0 && |ids| > 0 ==> ReportAt(ids, 0, budget) == Report([ids[0]], [], [ids[0]])
  {
  }

  lemma WalkStep(order: seq<Host>, env: Env, attempt: nat)
    requires Budget(order, attempt) > 0 && ConnectExit(order[0], env, attempt) != 0
    ensures
      var rest := Walk(order[1..], env, attempt + 1);
      Walk(order, env, attempt) == Report([order[0].id] + rest.tried, [order[0].id] + rest.killed, rest.committed)
    ensures FailuresFirst(order, env, attempt) == 1 + FailuresFirst(order[1..], env, attempt + 1)
    ensures Budget(order, attempt) == Budget(order[1..], attempt + 1) + 1
    ensures Ids(order) == [order[0].id] + Ids(order[1..])
  {
    hide ConnectExit;
  }

  lemma {:induction false} WalkByPosition(order: seq<Host>, env: Env, attempt: nat)
    ensures Walk(order, env, attempt) ==
      ReportAt(Ids(order), FailuresFirst(order, env, attempt), Budget(order, attempt))
    decreases |order|
  {
    hide ConnectExit, ReportAt;
    ReportAtStart(Ids(order), Budget(order, attempt));
    if Budget(order, attempt) > 0 && ConnectExit(order[0], env, attempt) != 0 {
      hide *;
      WalkStep(order, env, attempt);
      WalkByPosition(order[1..], env, attempt + 1);
      var rest := order[1..];
      ReportCons(order[0].id, Ids(rest), FailuresFirst(rest, env, attempt + 1), Budget(rest, attempt + 1));
    }
  }

  // Reading the final database off a trace

  lemma KillOrNot(e: Effect, h: Host)
    requires e.StateChanged? ==> e.to == Dead && e.cause == ConnectFailed
    ensures RowAfter(e, h).id == h.id
    ensures RowAfter(e, h).state == if KilledByConnect(e) == Some(h.id) then Dead else h.state
  {
  }

  // In a trace whose only changes of state are kills by a failed connect, a host
  // ends Dead if it was killed and unchanged otherwise.
  lemma {:induction false} KilledStates(t: seq<Effect>, h: Host)
    requires forall e :: e in t && e.StateChanged? ==> e.to == Dead && e.cause == ConnectFailed
    ensures RowAfterAll(t, h).state == if h.id in Select(t, KilledByConnect) then Dead else h.state
  {
    if |t| > 0 {
      var n := |t| - 1;
      assert t == t[..n] + [t[n]] && forall e :: e in t[..n] ==> e in t;
      assert t[n] in t;
      KilledStates(t[..n], h);
      KillOrNot(t[n], RowAfterAll(t[..n], h));
      hide Select, KilledByConnect, RowAfter;
      SelectConcat(t[..n], [t[n]], KilledByConnect);
      SelectOne(t[n], KilledByConnect);
    }
  }

  lemma {:induction false} StoredLeader(t: seq<Effect>, leader: nat)
    ensures
      var stored := Select(t, StoredBy);
      LeaderAfterAll(t, leader) == if |stored| > 0 then stored[|stored| - 1] else leader
  {
    if |t| > 0 {
      var n := |t| - 1;
      assert t == t[..n] + [t[n]];
      StoredLeader(t[..n], leader);
      SelectConcat(t[..n], [t[n]], StoredBy);
      SelectOne(t[n], StoredBy);
    }
  }

  // What the loop leaves in the database: the hosts it killed are Dead, no other
  // state has changed, and the last leader committed, if any, is stored.
  ghost predicate FinalRows(before: Db, after: Db, report: Report) {
    && after.leader == (if |report.committed| > 0 then report.committed[|report.committed| - 1] else before.leader)
    && |after.hosts| == |before.hosts|
    && forall i :: 0 <= i < |before.hosts| ==> FinalRow(before.hosts[i], after.hosts[i], report.killed)
  }

  ghost predicate FinalRow(before: Host, after: Host, killed: seq<nat>) {
    && after.id == before.id
    && after.priority == before.priority
    && after.state == (if before.id in killed then Dead else before.state)
  }

  lemma LoopRows(db: Db, cur: nat, reach: set<nat>, env: Env)
    requires ValidIds(db) && ReadyReachable(db.hosts, reach)
    ensures
      var t := ElectLoop(db, false, cur, reach, env, 0).trace;
      FinalRows(db, Replay(t, db), ReportOf(t))
  {
    hide ElectLoop;
    var t := ElectLoop(db, false, cur, reach, env, 0).trace;
    LoopEffectsKind(db, false, cur, reach, env, 0);
    StoredLeader(t, db.leader);
    forall i | 0 <= i < |db.hosts|
      ensures RowAfterAll(t, db.hosts[i]).state ==
        if db.hosts[i].id in Select(t, KilledByConnect) then Dead else db.hosts[i].state
    {
      KilledStates(t, db.hosts[i]);
    }
  }

  // Before the loop, a cycle changes states only for health reasons, and runs
  // no command and writes no leader.
  predicate IsEarly(e: Effect) {
    (e.StateChanged? && e.cause == HealthCheck) || IsCircuit(e)
  }

  function EarlyTrace(w: World, env: Env): seq<Effect> {
    CheckTrace(w.db.hosts, w.streaks, env) + BreakerTrace(w, env)
  }

  lemma EarlyIsEarly(w: World, env: Env)
    ensures forall e :: e in EarlyTrace(w, env) ==> IsEarly(e)
  {
    hide CheckedDb, CheckEffects, CheckedRow;
    CheckTraceKind(w.db.hosts, w.streaks, env);
  }

  lemma EarlyReport(t: seq<Effect>, u: seq<Effect>)
    requires forall e :: e in t ==> IsEarly(e)
    ensures ReportOf(t + u) == ReportOf(u)
  {
    SelectNothing(t, TriedBy);
    SelectNothing(t, KilledByConnect);
    SelectNothing(t, StoredBy);
    SelectConcat(t, u, TriedBy);
    SelectConcat(t, u, KilledByConnect);
    SelectConcat(t, u, StoredBy);
  }

  // A cycle is its early part and then its loop.
  lemma CycleParts(w: World, env: Env)
    ensures CycleTrace(w, env) == EarlyTrace(w, env) + CycleLoop(w, env).trace
    ensures ReportOf(CycleTrace(w, env)) == ReportOf(CycleLoop(w, env).trace)
    ensures Cycle(w, env).db == Replay(CycleLoop(w, env).trace, CheckedDb(w, env))
    ensures Cycle(w, env).open == CycleLoop(w, env).open
  {
    hide CycleTrace, CycleLoop, CheckedDb, Replay, CheckTrace, BreakerTrace, ReportOf, IsEarly;
    CycleIs(w, env);
    CycleReplay(w, env);
    EarlyIsEarly(w, env);
    EarlyReport(EarlyTrace(w, env), CycleLoop(w, env).trace);
  }

  lemma AllReadyReachable(w: World, env: Env)
    requires ValidIds(w.db)
    ensures ReadyReachable(CheckedDb(w, env).hosts, ReachableIds(w.db.hosts, w.streaks, env))
  {
    forall h | h in CheckedDb(w, env).hosts && h.state == Ready
      ensures h.id in ReachableIds(w.db.hosts, w.streaks, env)
    {
      ReadyIsReachable(w, env, h);
    }
  }

  // Main results

  // The election the cycle starts its loop with.
  function FirstElection(w: World, env: Env): ElectionResult {
    ElectionOf(CheckedDb(w, env).hosts, CheckedDb(w, env).leader, env.tie(0))
  }

  lemma FirstElectionIs(w: World, env: Env)
    ensures FirstElection(w, env) == ElectionOf(CheckedDb(w, env).hosts, CheckedDb(w, env).leader, env.tie(0))
  {
    hide CheckedDb, ElectionOf;
  }

  // When the first election does not return the stored leader, the cycle walks
  // the Ready hosts in priority order: it tries them one by one, at most three,
  // until one connects, kills exactly those that did not, and commits exactly
  // the one that did, or no one.
  lemma CycleWalks(w: World, env: Env) returns (order: seq<Host>)
    requires ValidIds(w.db)
    ensures FirstElection(w, env).changed ==>
      && PriorityOrder(order, CheckedDb(w, env).hosts)
      && ReportOf(CycleTrace(w, env)) == ReportAt(Ids(order), FailuresFirst(order, env, 0), Budget(order, 0))
      && FinalRows(CheckedDb(w, env), Cycle(w, env).db, ReportOf(CycleTrace(w, env)))
      && Cycle(w, env).open == OpenAfter(order, |w.db.hosts|, false, env, 0)
  {
    hide *;
    order := [];
    if FirstElection(w, env).changed {
      var db, reach := CheckedDb(w, env), ReachableIds(w.db.hosts, w.streaks, env);
      CheckedRows(w, env);
      AllReadyReachable(w, env);
      LoopIsElectLoop(w, env);
      var run;
      order, run := LoopWalks(db, false, db.leader, reach, env, 0);
      FollowsIs(run.trace, order, env);
      WalkByPosition(order, env, 0);
      LoopRows(db, db.leader, reach, env);
      CycleParts(w, env);
    }
  }

  lemma FollowsIs(t: seq<Effect>, order: seq<Host>, env: Env)
    requires Follows(t, order, env, 0)
    ensures ReportOf(t) == Walk(order, env, 0)
  {
  }

  lemma LoopIsElectLoop(w: World, env: Env)
    requires ValidIds(w.db)
    ensures FirstElection(w, env).changed ==>
      && AnyReady(CheckedDb(w, env).hosts) && DistinctIds(CheckedDb(w, env).hosts)
      && ElectionOf(CheckedDb(w, env).hosts, CheckedDb(w, env).leader, env.tie(0)).changed
      && CycleLoop(w, env) ==
           ElectLoop(CheckedDb(w, env), false, CheckedDb(w, env).leader,
                     ReachableIds(w.db.hosts, w.streaks, env), env, 0)
  {
    hide ElectLoop, CheckedDb, ReachableIds, AnyReady;
    CheckedRows(w, env);
  }

  ghost predicate LeaderIsBest(db: Db) {
    exists h :: IsBestReady(h, db.hosts) && h.id == db.leader
  }

  // Every cycle ends with no Ready host, or with a stored leader that is Ready
  // and of least priority, or with exactly three different hosts killed by their
  // connect command and the stored leader as it was.
  lemma CycleTrichotomy(w: World, env: Env)
    requires ValidIds(w.db)
    ensures
      var after := Cycle(w, env).db;
      var killed := ReportOf(CycleTrace(w, env)).killed;
      || !AnyReady(after.hosts)
      || LeaderIsBest(after)
      || (|killed| == 3 && killed[0] != killed[1] && killed[1] != killed[2] && killed[0] != killed[2]
          && after.leader == w.db.leader)
  {
    if FirstElection(w, env).changed {
      hide *;
      var order := CycleWalks(w, env);
      CheckedRows(w, env);
      WalkEnds(order, CheckedDb(w, env), Cycle(w, env).db, env);
      KilledDistinct(order, FailuresFirst(order, env, 0));
    } else {
      hide ElectLoop, ElectionOf, CheckedDb, Replay, IsBestReady, CycleTrace, ReportOf, Cycle;
      UnchangedCycle(w, env);
    }
  }

  lemma KilledDistinct(order: seq<Host>, k: nat)
    requires DistinctIds(order) && k <= |order|
    ensures
      var killed := Ids(order)[..k];
      |killed| == 3 ==> killed[0] != killed[1] && killed[1] != killed[2] && killed[0] != killed[2]
  {
  }

  // Where the walk leaves the database.
  lemma WalkEnds(order: seq<Host>, before: Db, after: Db, env: Env)
    requires PriorityOrder(order, before.hosts) && DistinctIds(order)
    requires FinalRows(before, after, ReportAt(Ids(order), FailuresFirst(order, env, 0), Budget(order, 0)))
    ensures
      var k := FailuresFirst(order, env, 0);
      var report := ReportAt(Ids(order), k, Budget(order, 0));
      || !AnyReady(after.hosts)
      || LeaderIsBest(after)
      || (|report.killed| == 3 && report.killed == Ids(order)[..k] && after.leader == before.leader)
  {
    var k := FailuresFirst(order, env, 0);
    FailuresFirstIsLeast(order, env, 0);
    hide FailuresFirst, IsBestReady, AscendingPriority, DistinctIds;
    if k < Budget(order, 0) {
      assert order[k] in order;
      var i :| 0 <= i < |before.hosts| && before.hosts[i] == order[k];
      CommittedIsBest(order, before, after, k, i);
    } else if k == |order| {
      AllKilled(order, before, after, ReportAt(Ids(order), k, Budget(order, 0)));
    }
  }

  lemma AllKilled(order: seq<Host>, before: Db, after: Db, report: Report)
    requires PriorityOrder(order, before.hosts) && FinalRows(before, after, report)
    requires report.killed == Ids(order)[..|order|]
    ensures !AnyReady(after.hosts)
  {
    hide AscendingPriority, DistinctIds;
    forall h | h in after.hosts ensures h.state != Ready {
      var i :| 0 <= i < |after.hosts| && after.hosts[i] == h;
      assert FinalRow(before.hosts[i], h, report.killed);
      if before.hosts[i].state == Ready {
        assert before.hosts[i] in before.hosts;
        var j :| 0 <= j < |order| && order[j] == before.hosts[i];
        assert report.killed[j] == h.id;
      }
    }
  }

  // Once the first k hosts of the order are dead, host k is the best Ready one.
  lemma CommittedIsBest(order: seq<Host>, before: Db, after: Db, k: nat, i: nat)
    requires PriorityOrder(order, before.hosts) && DistinctIds(order)
    requires k < |order| && i < |before.hosts| && before.hosts[i] == order[k]
    requires FinalRows(before, after, Report(Ids(order)[..k + 1], Ids(order)[..k], [Ids(order)[k]]))
    ensures LeaderIsBest(after)
  {
    var killed := Ids(order)[..k];
    var h := after.hosts[i];
    assert FinalRow(before.hosts[i], h, killed);
    assert h.id !in killed;
    forall m | 0 <= m < k ensures order[m].id in killed {
      assert killed[m] == order[m].id;
    }
    forall g | g in after.hosts && g.state == Ready ensures h.priority <= g.priority {
      var j :| 0 <= j < |after.hosts| && after.hosts[j] == g;
      assert FinalRow(before.hosts[j], g, killed);
      var m :| 0 <= m < |order| && order[m] == before.hosts[j];
      assert m >= k;
    }
    assert IsBestReady(h, after.hosts) && h.id == after.leader;
  }

  // A cycle whose first election returns no one, or the stored leader again.
  lemma UnchangedCycle(w: World, env: Env)
    requires ValidIds(w.db) && !FirstElection(w, env).changed
    ensures Cycle(w, env).db == CheckedDb(w, env)
    ensures ReportOf(CycleTrace(w, env)) == Report([], [], [])
    ensures FirstElection(w, env).leader.None? ==> !AnyReady(Cycle(w, env).db.hosts)
    ensures FirstElection(w, env).leader.Some? ==> LeaderIsBest(Cycle(w, env).db) && CycleLoop(w, env).trace == []
    ensures forall e :: e in CycleTrace(w, env) ==> IsEarly(e)
    ensures Cycle(w, env).open == ShouldOpen(Cycle(w, env).db.hosts)
  {
    hide CheckedDb, CycleTrace, Replay, Cycle, IsBestReady, EarlyTrace;
    CycleParts(w, env);
    EarlyIsEarly(w, env);
    var t := CycleLoop(w, env).trace;
    IdleLoop(w, env);
    SilentReplay(t, CheckedDb(w, env));
    EarlyReport(t, []);
    assert t + [] == t;
  }

  lemma IdleLoop(w: World, env: Env)
    requires !FirstElection(w, env).changed
    ensures forall e :: e in CycleLoop(w, env).trace ==> IsEarly(e) && IsSilent(e)
    ensures FirstElection(w, env).leader.Some? ==> CycleLoop(w, env).trace == []
    ensures CycleLoop(w, env).open == ShouldOpen(CheckedDb(w, env).hosts)
  {
    hide CheckedDb, ElectionOf, ReachableIds;
    var db := CheckedDb(w, env);
    IdleAttempt(db, false, db.leader, ReachableIds(w.db.hosts, w.streaks, env), env, 0);
  }

  lemma IdleIsEarly(db: Db, open: bool, cur: nat, reach: set<nat>, env: Env, attempt: nat)
    requires attempt >= MAX_ELECT_RETRIES || !ElectionOf(db.hosts, cur, env.tie(attempt)).changed
    ensures forall e :: e in ElectLoop(db, open, cur, reach, env, attempt).trace ==> IsEarly(e)
  {
    if attempt < MAX_ELECT_RETRIES {
      IdleAttempt(db, open, cur, reach, env, attempt);
      hide AttemptOf, Replay;
    }
  }

  // If after the checks the stored leader is the one Ready host of least
  // priority, the cycle runs no command, touches no DNS name and writes no leader.
  lemma Quiescence(w: World, env: Env, h: Host)
    requires ValidIds(w.db)
    requires IsBestReady(h, CheckedDb(w, env).hosts) && h.id == w.db.leader
    requires forall g :: IsBestReady(g, CheckedDb(w, env).hosts) ==> g == h
    ensures forall e :: e in CycleTrace(w, env) ==> IsEarly(e)
    ensures Cycle(w, env).db == CheckedDb(w, env)
  {
    CheckedRows(w, env);
    hide CheckedDb, CycleTrace, Cycle, IsEarly;
    UnchangedCycle(w, env);
  }

  // The shape of a cycle's trace

  // Before the winner's connect command, nothing touches DNS, writes a leader or
  // notifies anyone of either.
  predicate IsBeforeCommit(e: Effect) {
    && !IsDns(e) && !e.FlagsCleared? && !e.FlagSet? && !e.LeaderStored?
    && (e.Notified? ==> e.notice == CircuitOpenNotice || e.notice == CircuitCloseNotice)
  }

  // The end of a loop that commits l.
  function Ending(db: Db, l: Host, env: Env): seq<Effect> {
    [Connected(l.id, 0)] + DnsOf(db, l, env).trace + CommitEffects(l, DnsOf(db, l, env))
  }

  ghost predicate Shaped(t: seq<Effect>, db: Db, env: Env, pre: seq<Effect>, l: Option<Host>) {
    && (forall e :: e in pre ==> IsBeforeCommit(e))
    && (l.None? ==> t == pre)
    && (l.Some? ==> l.value in db.hosts && l.value.state == Ready && t == pre + Ending(db, l.value, env))
  }

  lemma {:induction false} LoopShape(db: Db, open: bool, cur: nat, reach: set<nat>, env: Env, attempt: nat)
    returns (pre: seq<Effect>, l: Option<Host>)
    requires ValidIds(db) && ReadyReachable(db.hosts, reach)
    ensures Shaped(ElectLoop(db, open, cur, reach, env, attempt).trace, db, env, pre, l)
    decreases MAX_ELECT_RETRIES - attempt
  {
    hide *;
    if attempt >= MAX_ELECT_RETRIES || !ElectionOf(db.hosts, cur, env.tie(attempt)).changed {
      pre, l := ElectLoop(db, open, cur, reach, env, attempt).trace, None;
      IdleShape(db, open, cur, reach, env, attempt);
    } else if AttemptOf(db, open, cur, reach, env, attempt).over {
      pre, l := CommitShape(db, open, cur, reach, env, attempt);
    } else {
      var tried, a, after := AttemptFails(db, open, cur, reach, env, attempt);
      FailedIsBeforeCommit(db, open, cur, reach, env, attempt);
      pre, l := LoopShape(after, a.open, 0, reach, env, attempt + 1);
      ShapeStep(db, after, tried, a.trace, ElectLoop(after, a.open, 0, reach, env, attempt + 1).trace, env, pre, l);
      pre := a.trace + pre;
    }
  }

  lemma IdleShape(db: Db, open: bool, cur: nat, reach: set<nat>, env: Env, attempt: nat)
    requires attempt >= MAX_ELECT_RETRIES || !ElectionOf(db.hosts, cur, env.tie(attempt)).changed
    ensures
      var t := ElectLoop(db, open, cur, reach, env, attempt).trace;
      Shaped(t, db, env, t, None)
  {
    hide AttemptOf, ElectionOf, Ending;
    if attempt < MAX_ELECT_RETRIES {
      IdleAttempt(db, open, cur, reach, env, attempt);
    }
  }

  lemma CommitShape(db: Db, open: bool, cur: nat, reach: set<nat>, env: Env, attempt: nat)
    returns (pre: seq<Effect>, l: Option<Host>)
    requires ReadyReachable(db.hosts, reach) && attempt < MAX_ELECT_RETRIES
    requires ElectionOf(db.hosts, cur, env.tie(attempt)).changed
    requires AttemptOf(db, open, cur, reach, env, attempt).over
    ensures Shaped(ElectLoop(db, open, cur, reach, env, attempt).trace, db, env, pre, l)
  {
    hide *;
    var e := ElectionOf(db.hosts, cur, env.tie(attempt));
    AttemptShape(db, open, cur, reach, env, attempt);
    pre, l := Opening(e, reach), e.leader;
    var dns := DnsOf(db, l.value, env);
    OverLoop(db, open, cur, reach, env, attempt);
    OpeningIsBeforeCommit(e, reach);
    EndingIs(db, l.value, env, attempt);
    assert pre + [Connected(l.value.id, 0)] + (dns.trace + CommitEffects(l.value, dns)) ==
      pre + ([Connected(l.value.id, 0)] + dns.trace + CommitEffects(l.value, dns));
    ShapedIf(ElectLoop(db, open, cur, reach, env, attempt).trace, db, env, pre, l);
  }

  lemma OverLoop(db: Db, open: bool, cur: nat, reach: set<nat>, env: Env, attempt: nat)
    requires attempt < MAX_ELECT_RETRIES && AttemptOf(db, open, cur, reach, env, attempt).over
    ensures ElectLoop(db, open, cur, reach, env, attempt).trace == AttemptOf(db, open, cur, reach, env, attempt).trace
  {
    hide AttemptOf, Replay;
  }

  lemma OpeningIsBeforeCommit(e: ElectionResult, reach: set<nat>)
    ensures forall x :: x in Opening(e, reach) ==> IsBeforeCommit(x)
  {
  }

  lemma EndingIs(db: Db, l: Host, env: Env, attempt: nat)
    ensures Ending(db, l, env) == [Connected(l.id, 0)] + DnsOf(db, l, env).trace + CommitEffects(l, DnsOf(db, l, env))
    ensures ConnectExit(l, env, attempt) == 0 ==> OwnEffects(l, env, attempt) == [Connected(l.id, 0)]
  {
    hide DnsOf, CommitEffects, ConnectExit;
  }

  lemma ShapedIf(t: seq<Effect>, db: Db, env: Env, pre: seq<Effect>, l: Option<Host>)
    requires l.Some? && IsBestReady(l.value, db.hosts)
    requires (forall e :: e in pre ==> IsBeforeCommit(e)) && t == pre + Ending(db, l.value, env)
    ensures Shaped(t, db, env, pre, l)
  {
    hide IsBeforeCommit, Ending;
  }

  lemma FailedIsBeforeCommit(db: Db, open: bool, cur: nat, reach: set<nat>, env: Env, attempt: nat)
    requires ReadyReachable(db.hosts, reach)
    requires ElectionOf(db.hosts, cur, env.tie(attempt)).changed
    requires !AttemptOf(db, open, cur, reach, env, attempt).over
    ensures forall e :: e in AttemptOf(db, open, cur, reach, env, attempt).trace ==> IsBeforeCommit(e)
  {
    hide DnsOf, AttemptOf, ElectionOf, CommitEffects;
    AttemptShape(db, open, cur, reach, env, attempt);
  }

  lemma ShapeStep(db: Db, after: Db, tried: Host, t: seq<Effect>, u: seq<Effect>, env: Env,
        pre: seq<Effect>, l: Option<Host>)
    requires FailedTable(db.hosts, after.hosts, tried.id) && after == db.(hosts := after.hosts)
    requires forall e :: e in t ==> IsBeforeCommit(e)
    requires Shaped(u, after, env, pre, l)
    ensures Shaped(t + u, db, env, t + pre, l)
  {
    if l.Some? {
      var i :| 0 <= i < |after.hosts| && after.hosts[i] == l.value;
      assert FailedRow(db.hosts[i], after.hosts[i], tried.id);
      assert db.hosts[i] == l.value;
      assert Ending(db, l.value, env) == Ending(after, l.value, env);
      assert t + (pre + Ending(db, l.value, env)) == t + pre + Ending(db, l.value, env);
    }
  }

  // Every cycle is a prefix that touches no DNS name and no leader, followed, if
  // it commits a host, by that host's successful connect, its DNS updates and
  // the three writes of the commit.
  lemma CycleShape(w: World, env: Env) returns (pre: seq<Effect>, l: Option<Host>)
    requires ValidIds(w.db)
    ensures Shaped(CycleTrace(w, env), CheckedDb(w, env), env, pre, l)
    ensures Cycle(w, env).db.leader == if l.Some? then l.value.id else w.db.leader
  {
    hide *;
    CycleParts(w, env);
    EarlyIsEarly(w, env);
    CheckedRows(w, env);
    AllReadyReachable(w, env);
    if FirstElection(w, env).changed {
      LoopIsElectLoop(w, env);
      var db := CheckedDb(w, env);
      pre, l := LoopShape(db, false, db.leader, ReachableIds(w.db.hosts, w.streaks, env), env, 0);
    } else {
      UnchangedCycle(w, env);
      pre, l := CycleLoop(w, env).trace, None;
      IdleLoop(w, env);
      EarlyShape(pre, CheckedDb(w, env), env);
    }
    ShapeLeader(CycleLoop(w, env).trace, CheckedDb(w, env), env, pre, l);
    EarlyShape(EarlyTrace(w, env), CheckedDb(w, env), env);
    ShapeFront(EarlyTrace(w, env), CycleLoop(w, env).trace, CheckedDb(w, env), env, pre, l);
    pre := EarlyTrace(w, env) + pre;
  }

  lemma EarlyShape(t: seq<Effect>, db: Db, env: Env)
    requires forall e :: e in t ==> IsEarly(e)
    ensures Shaped(t, db, env, t, None)
  {
    hide Ending;
  }

  lemma ShapeFront(t: seq<Effect>, u: seq<Effect>, db: Db, env: Env, pre: seq<Effect>, l: Option<Host>)
    requires Shaped(t, db, env, t, None) && Shaped(u, db, env, pre, l)
    ensures Shaped(t + u, db, env, t + pre, l)
  {
    hide Ending;
    if l.Some? {
      assert t + (pre + Ending(db, l.value, env)) == t + pre + Ending(db, l.value, env);
    }
  }

  lemma ShapeLeader(t: seq<Effect>, db: Db, env: Env, pre: seq<Effect>, l: Option<Host>)
    requires Shaped(t, db, env, pre, l)
    ensures Replay(t, db).leader == if l.Some? then l.value.id else db.leader
  {
    hide DnsOf;
    NoLeaderStored(pre, db.leader);
    if l.Some? {
      var dns := DnsOf(db, l.value, env);
      DnsKinds(db, l.value, env);
      LeaderAfterConcat(pre, Ending(db, l.value, env), db.leader);
      EndingParts(l.value, dns);
      var commit := CommitEffects(l.value, dns);
      LeaderAfterConcat([Connected(l.value.id, 0)] + dns.trace, commit, db.leader);
      LeaderAfterConcat(commit[..2] + [LeaderStored(l.value.id)], commit[3..],
                        LeaderAfterAll([Connected(l.value.id, 0)] + dns.trace, db.leader));
      NoLeaderStored(commit[3..], l.value.id);
    }
  }

  lemma EndingParts(l: Host, dns: DnsRun)
    ensures
      var commit := CommitEffects(l, dns);
      && commit == commit[..2] + [LeaderStored(l.id)] + commit[3..]
      && (forall e :: e in commit[3..] ==> e.Notified?)
  {
  }
}
