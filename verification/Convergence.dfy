// What steady conditions come to: when all hosts send good heartbeats and can be
// connected, the pool settles within two cycles, if it can settle at all.
module Convergence {
  import opened Models
  import opened Elections
  import opened Circuits
  import opened Cycles
  import opened CheckPhase
  import opened Failover
  import opened CycleTheorems
  import opened Runs
  import opened Histories
  import opened Thrashing

  // Every host of this table is heard from and within its traffic threshold, and
  // the first connect of the cycle works.
  ghost predicate IsGood(env: Env, hosts: seq<Host>) {
    env.connectExit(0) == 0 && forall h :: h in hosts ==> Beats(h, env)
  }

  // The same hosts, as far as no cycle changes them.
  ghost predicate SameHosts(before: seq<Host>, after: seq<Host>) {
    |after| == |before| && forall i :: 0 <= i < |before| ==>
      && after[i].id == before[i].id && after[i].priority == before[i].priority
      && after[i].trafficThreshold == before[i].trafficThreshold
  }

  lemma GoodForSame(env: Env, before: seq<Host>, after: seq<Host>)
    requires IsGood(env, before) && SameHosts(before, after)
    ensures IsGood(env, after)
  {
    forall h | h in after ensures Beats(h, env) {
      var i :| 0 <= i < |after| && after[i] == h;
      assert before[i] in before;
    }
  }

  lemma CycleKeepsHosts(w: World, env: Env)
    requires ValidIds(w.db)
    ensures ValidIds(Cycle(w, env).db) && SameHosts(w.db.hosts, Cycle(w, env).db.hosts)
  {
    hide CycleTrace, CycleLoop, RowAfterAll, LeaderAfterAll;
  }

  // One good cycle

  lemma FirstConnects(order: seq<Host>, env: Env)
    requires |order| > 0 && env.connectExit(0) == 0
    ensures FailuresFirst(order, env, 0) == 0 && Budget(order, 0) > 0
    ensures ReportAt(Ids(order), FailuresFirst(order, env, 0), Budget(order, 0)) ==
      Report([order[0].id], [], [order[0].id])
  {
    FailuresFirstIsLeast(order, env, 0);
    hide FailuresFirst;
    assert FailuresFirst(order, env, 0) == 0 || ConnectExit(order[0], env, 0 + 0) != 0;
    assert Ids(order)[..1] == [order[0].id] && Ids(order)[..0] == [];
  }

  lemma SomeoneInOrder(order: seq<Host>, db: Db, e: ElectionResult)
    requires PriorityOrder(order, db.hosts) && e.leader.Some? && IsBestReady(e.leader.value, db.hosts)
    ensures |order| > 0
  {
    hide AscendingPriority, DistinctIds;
    assert e.leader.value in order;
  }

  ghost predicate StatesKept(before: seq<Host>, after: seq<Host>) {
    |after| == |before| && forall i :: 0 <= i < |before| ==> after[i].state == before[i].state
  }

  // If its first connect works, a cycle kills no one after the checks, and what
  // it does when it changes leader is to commit.
  lemma GoodCycle(w: World, env: Env)
    requires ValidIds(w.db) && env.connectExit(0) == 0
    ensures ReportOf(CycleTrace(w, env)).killed == []
    ensures StatesKept(CheckedDb(w, env).hosts, Cycle(w, env).db.hosts)
    ensures FirstElection(w, env).changed ==> |ReportOf(CycleTrace(w, env)).committed| == 1
  {
    hide *;
    CheckedRows(w, env);
    if FirstElection(w, env).changed {
      var order := CycleWalks(w, env);
      ElectedIsBest(w, env);
      SomeoneInOrder(order, CheckedDb(w, env), FirstElection(w, env));
      FirstConnects(order, env);
      NobodyDied(CheckedDb(w, env), Cycle(w, env).db, ReportOf(CycleTrace(w, env)));
    } else {
      UnchangedCycle(w, env);
      NothingReported();
      AllTheSame(CheckedDb(w, env).hosts);
    }
  }

  lemma NothingReported()
    ensures Report([], [], []).killed == []
  {
  }

  lemma AllTheSame(hosts: seq<Host>)
    ensures StatesKept(hosts, hosts)
  {
  }

  lemma ElectedIsBest(w: World, env: Env)
    ensures
      var e := FirstElection(w, env);
      && (e.leader.Some? ==> IsBestReady(e.leader.value, CheckedDb(w, env).hosts))
      && (e.leader.None? <==> !AnyReady(CheckedDb(w, env).hosts))
      && (e.changed <==> e.leader.Some? && e.leader.value.id != CheckedDb(w, env).leader)
  {
    hide CheckedDb, ElectionOf;
  }

  lemma NobodyDied(before: Db, after: Db, report: Report)
    requires FinalRows(before, after, report) && report.killed == []
    ensures StatesKept(before.hosts, after.hosts)
  {
  }

  // The two cycles it takes

  ghost predicate AllNearlyAlive(w: World) {
    forall h :: h in w.db.hosts ==> NearlyAlive(w, h)
  }

  ghost predicate AllAlive(hosts: seq<Host>) {
    forall h :: h in hosts ==> h.state == Ready
  }

  lemma CheckedWhenGood(h: Host, w: World, env: Env)
    requires Beats(h, env)
    ensures CheckedRow(h, w.streaks, env).state == Ready || CheckedRow(h, w.streaks, env).state == Dead
    ensures NearlyAlive(w, h) ==> CheckedRow(h, w.streaks, env).state == Ready
    ensures RecoverAfter(w.streaks, h.id, env) >= 1
  {
  }

  lemma GoodChecks(w: World, env: Env)
    requires ValidIds(w.db) && IsGood(env, w.db.hosts)
    ensures AllNearlyAlive(w) ==> AllAlive(CheckedDb(w, env).hosts)
    ensures forall h :: h in w.db.hosts ==> Streak(CountHosts(w.streaks, w.db.hosts, env).recover, h.id) >= 1
  {
    hide CheckedDb, CheckedRow, CountHosts, RecoverAfter, NearlyAlive, Beats;
    CheckedRows(w, env);
    forall h | h in w.db.hosts
      ensures Streak(CountHosts(w.streaks, w.db.hosts, env).recover, h.id) >= 1
      ensures NearlyAlive(w, h) ==> CheckedRow(h, w.streaks, env).state == Ready
    {
      CheckedWhenGood(h, w, env);
      CountHostsAt(w.streaks, w.db.hosts, env, h);
    }
    if AllNearlyAlive(w) {
      forall g | g in CheckedDb(w, env).hosts ensures g.state == Ready {
        var i :| 0 <= i < |w.db.hosts| && CheckedDb(w, env).hosts[i] == g;
        assert w.db.hosts[i] in w.db.hosts;
      }
    }
  }

  // After any good cycle every host is nearly alive.
  lemma OneGoodCycle(w: World, env: Env)
    requires ValidIds(w.db) && IsGood(env, w.db.hosts)
    ensures AllNearlyAlive(Cycle(w, env))
  {
    hide *;
    GoodChecks(w, env);
    CycleStreaks(w, env);
    CycleKeepsHosts(w, env);
    NearlyByStreaks(w, Cycle(w, env));
  }

  lemma NearlyByStreaks(w: World, after: World)
    requires SameHosts(w.db.hosts, after.db.hosts)
    requires forall h :: h in w.db.hosts ==> Streak(after.streaks.recover, h.id) >= 1
    ensures AllNearlyAlive(after)
  {
    forall h | h in after.db.hosts ensures NearlyAlive(after, h) {
      var i :| 0 <= i < |after.db.hosts| && after.db.hosts[i] == h;
      assert w.db.hosts[i] in w.db.hosts;
    }
  }

  // All hosts Ready, the breaker closed, and a leader of least priority.
  ghost predicate Settled(w: World) {
    && ValidIds(w.db) && !w.open && AllAlive(w.db.hosts) && LeaderIsBest(w.db)
  }

  // A good cycle that begins with every host nearly alive ends settled.
  lemma SecondGoodCycle(w: World, env: Env)
    requires ValidIds(w.db) && IsGood(env, w.db.hosts) && AllNearlyAlive(w) && |w.db.hosts| > 0
    ensures Settled(Cycle(w, env))
  {
    hide *;
    GoodEnvConnects(env, w.db.hosts);
    GoodChecks(w, env);
    GoodCycle(w, env);
    CheckedRows(w, env);
    CycleKeepsHosts(w, env);
    CycleTrichotomy(w, env);
    BreakerAfterCycle(w, env);
    StillAlive(CheckedDb(w, env).hosts, Cycle(w, env).db.hosts);
    NotThree(CheckedDb(w, env).hosts, env);
    SettledIf(Cycle(w, env), ReportOf(CycleTrace(w, env)).killed);
  }

  lemma GoodEnvConnects(env: Env, hosts: seq<Host>)
    requires IsGood(env, hosts)
    ensures env.connectExit(0) == 0
  {
    hide Beats;
  }

  lemma StillAlive(before: seq<Host>, after: seq<Host>)
    requires AllAlive(before) && StatesKept(before, after) && |before| > 0
    ensures AllAlive(after) && |after| > 0
  {
    forall h | h in after ensures h.state == Ready {
      var i :| 0 <= i < |after| && after[i] == h;
      assert before[i] in before;
    }
  }

  lemma NotThree(hosts: seq<Host>, env: Env)
    requires env.connectExit(0) == 0
    ensures !AllThreeFail(hosts, env)
  {
    hide ReadyHosts;
  }

  lemma SettledIf(w: World, killed: seq<nat>)
    requires ValidIds(w.db) && AllAlive(w.db.hosts) && |w.db.hosts| > 0 && killed == []
    requires !AnyReady(w.db.hosts) || LeaderIsBest(w.db) || |killed| == 3
    requires w.open ==> ShouldOpen(w.db.hosts)
    ensures Settled(w)
  {
    hide LeaderIsBest, ValidIds;
    assert w.db.hosts[0] in w.db.hosts;
  }

  // A settled pool

  // Exactly one host has the least priority.
  ghost predicate OneIsLeast(hosts: seq<Host>) {
    exists b :: b in hosts && forall h :: h in hosts && h.id != b.id ==> b.priority < h.priority
  }

  lemma SettledChecks(w: World, env: Env)
    requires Settled(w) && IsGood(env, w.db.hosts)
    ensures CheckedDb(w, env) == w.db && CheckTrace(w.db.hosts, w.streaks, env) == []
  {
    hide CheckedDb, CheckTrace, CheckedRow, LeaderIsBest, Beats, NearlyAlive;
    CheckedRows(w, env);
    CheckTraceKind(w.db.hosts, w.streaks, env);
    forall i | 0 <= i < |w.db.hosts| ensures CheckedRow(w.db.hosts[i], w.streaks, env) == w.db.hosts[i] {
      assert w.db.hosts[i] in w.db.hosts;
      SameWhenAlive(w.db.hosts[i], w, env);
    }
    assert CheckedDb(w, env).hosts == w.db.hosts;
    SomethingIn(CheckTrace(w.db.hosts, w.streaks, env));
  }

  lemma SomethingIn(t: seq<Effect>)
    ensures |t| > 0 ==> exists e :: e in t
  {
    if |t| > 0 {
      assert t[0] in t;
    }
  }

  lemma SameWhenAlive(h: Host, w: World, env: Env)
    requires Beats(h, env) && h.state == Ready
    ensures CheckedRow(h, w.streaks, env) == h
  {
  }

  // With one host of least priority a good cycle of a settled pool does nothing.
  lemma SettledIsSilent(w: World, env: Env)
    requires Settled(w) && IsGood(env, w.db.hosts) && OneIsLeast(w.db.hosts)
    ensures CycleTrace(w, env) == [] && Cycle(w, env).db == w.db && Settled(Cycle(w, env))
  {
    hide *;
    SettledParts(w);
    SettledChecks(w, env);
    ElectedIsBest(w, env);
    SameBest(w, FirstElection(w, env));
    CycleIs(w, env);
    UnchangedCycle(w, env);
    IdleLoop(w, env);
    BreakerStays(w, env);
    SettledAgain(w, Cycle(w, env));
    assert [] + BreakerTrace(w, env) + CycleLoop(w, env).trace == [];
  }

  lemma SettledParts(w: World)
    requires Settled(w)
    ensures ValidIds(w.db) && !w.open && AllAlive(w.db.hosts) && LeaderIsBest(w.db)
    ensures AnyReady(w.db.hosts) && !ShouldOpen(w.db.hosts) && |w.db.hosts| > 0
  {
    hide ValidIds;
  }

  lemma SameBest(w: World, e: ElectionResult)
    requires ValidIds(w.db) && LeaderIsBest(w.db) && AllAlive(w.db.hosts) && OneIsLeast(w.db.hosts)
    requires e.leader.None? <==> !AnyReady(w.db.hosts)
    requires e.leader.Some? ==> IsBestReady(e.leader.value, w.db.hosts)
    requires e.changed <==> e.leader.Some? && e.leader.value.id != w.db.leader
    ensures !e.changed && e.leader.Some?
  {
    var l :| IsBestReady(l, w.db.hosts) && l.id == w.db.leader;
    var b :| b in w.db.hosts && forall h :: h in w.db.hosts && h.id != b.id ==> b.priority < h.priority;
  }

  lemma BreakerStays(w: World, env: Env)
    requires !w.open && !ShouldOpen(CheckedDb(w, env).hosts)
    ensures BreakerTrace(w, env) == []
  {
    hide CheckedDb, ShouldOpen;
  }

  lemma SettledAgain(w: World, after: World)
    requires Settled(w) && after.db == w.db && after.open == ShouldOpen(after.db.hosts)
    ensures Settled(after)
  {
    hide ValidIds;
  }

  // Runs

  ghost predicate AllGood(envs: seq<Env>, hosts: seq<Host>) {
    forall i :: 0 <= i < |envs| ==> IsGood(envs[i], hosts)
  }

  // What n good cycles have brought about.
  ghost predicate Stage(w: World, n: nat) {
    (n >= 1 ==> AllNearlyAlive(w)) && (n >= 2 ==> Settled(w))
  }

  lemma StageOne(w: World)
    ensures Stage(w, 0) && (AllNearlyAlive(w) ==> Stage(w, 1))
    ensures forall n: nat :: n >= 2 && AllNearlyAlive(w) && Settled(w) ==> Stage(w, n)
  {
    hide AllNearlyAlive, Settled;
  }

  lemma StageIs(w: World, n: nat)
    requires Stage(w, n)
    ensures (n >= 1 ==> AllNearlyAlive(w)) && (n >= 2 ==> Settled(w))
  {
    hide AllNearlyAlive, Settled;
  }

  lemma AllGoodParts(envs: seq<Env>, before: seq<Host>, after: seq<Host>)
    requires |envs| > 0 && AllGood(envs, before) && SameHosts(before, after)
    ensures AllGood(envs[..|envs| - 1], before) && IsGood(envs[|envs| - 1], after)
  {
    hide IsGood;
    GoodForSame(envs[|envs| - 1], before, after);
  }

  lemma SameHostsTwice(a: seq<Host>, b: seq<Host>, c: seq<Host>)
    requires SameHosts(a, b) && SameHosts(b, c)
    ensures SameHosts(a, c) && |c| == |a|
  {
  }

  lemma BeginsAt(w: World)
    ensures Reach(w, Polls([])) == w && SameHosts(w.db.hosts, w.db.hosts)
  {
  }

  // From any world, any number of good cycles.
  lemma {:induction false} GoodRun(w: World, envs: seq<Env>)
    requires ValidIds(w.db) && |w.db.hosts| > 0 && AllGood(envs, w.db.hosts)
    ensures
      var after := Reach(w, Polls(envs));
      ValidIds(after.db) && SameHosts(w.db.hosts, after.db.hosts) && Stage(after, |envs|)
  {
    hide *;
    if |envs| == 0 {
      BeginsAt(w);
      StageOne(w);
    } else {
      var before, env := envs[..|envs| - 1], envs[|envs| - 1];
      BeginsAt(w);
      AllGoodParts(envs, w.db.hosts, w.db.hosts);
      GoodRun(w, before);
      var mid := Reach(w, Polls(before));
      AllGoodParts(envs, w.db.hosts, mid.db.hosts);
      PollsStep(w, envs);
      StageIs(mid, |before|);
      CycleKeepsHosts(mid, env);
      SameHostsTwice(w.db.hosts, mid.db.hosts, Cycle(mid, env).db.hosts);
      SameHostsTwice(w.db.hosts, w.db.hosts, mid.db.hosts);
      OneGoodCycle(mid, env);
      if |before| > 0 {
        SecondGoodCycle(mid, env);
      }
      StageOne(Cycle(mid, env));
    }
  }

  // Under steady good conditions, from any world whose table has exactly one host
  // of least priority, every cycle after the second has no effect at all.
  lemma Converges(w: World, envs: seq<Env>, env: Env)
    requires ValidIds(w.db) && OneIsLeast(w.db.hosts)
    requires AllGood(envs, w.db.hosts) && IsGood(env, w.db.hosts) && |envs| >= 2
    ensures
      var after := Reach(w, Polls(envs));
      CycleTrace(after, env) == [] && Cycle(after, env).db == after.db && Settled(after)
  {
    hide *;
    SomeoneIsLeast(w.db.hosts);
    GoodRun(w, envs);
    var after := Reach(w, Polls(envs));
    StageIs(after, |envs|);
    GoodForSame(env, w.db.hosts, after.db.hosts);
    LeastForSame(w.db.hosts, after.db.hosts);
    SettledIsSilent(after, env);
  }

  lemma SomeoneIsLeast(hosts: seq<Host>)
    ensures OneIsLeast(hosts) ==> |hosts| > 0
  {
  }

  lemma LeastForSame(before: seq<Host>, after: seq<Host>)
    requires SameHosts(before, after)
    ensures OneIsLeast(before) <==> OneIsLeast(after)
  {
    if OneIsLeast(before) {
      LeastGoesOver(before, after);
    }
    if OneIsLeast(after) {
      LeastGoesOver(after, before);
    }
  }

  lemma LeastGoesOver(before: seq<Host>, after: seq<Host>)
    requires SameHosts(before, after) && OneIsLeast(before)
    ensures OneIsLeast(after)
  {
    var b :| b in before && forall h :: h in before && h.id != b.id ==> b.priority < h.priority;
    var i :| 0 <= i < |before| && before[i] == b;
    forall h | h in after && h.id != after[i].id ensures after[i].priority < h.priority {
      var j :| 0 <= j < |after| && after[j] == h;
      assert before[j] in before;
    }
    assert after[i] in after;
  }

  // When a pool need not settle

  // Good conditions, with equal priorities ordered in favour of this host.
  function GoodEnv(id: nat): Env {
    Env((h: nat) => Fresh(true, true, 0, 0), (a: nat) => 0, (i: nat) => true, true, (a: nat) => Favouring(id))
  }

  lemma GoodEnvIsGood(id: nat, hosts: seq<Host>)
    ensures IsGood(GoodEnv(id), hosts) && forall a: nat :: GoodEnv(id).tie(a) == Favouring(id)
  {
  }

  // Two hosts share the least priority, or there is none.
  lemma AnotherIsLeast(hosts: seq<Host>, leader: nat) returns (b: Host)
    requires |hosts| > 0 && !OneIsLeast(hosts)
    ensures b in hosts && b.id != leader && forall h :: h in hosts ==> b.priority <= h.priority
  {
    var m := LeastOf(hosts);
    b := m;
    if m.id == leader {
      b :| b in hosts && b.id != m.id && m.priority >= b.priority;
    }
  }

  lemma {:induction false} LeastOf(hosts: seq<Host>) returns (m: Host)
    requires |hosts| > 0
    ensures m in hosts && forall h :: h in hosts ==> m.priority <= h.priority
  {
    var n := |hosts| - 1;
    m := hosts[n];
    assert hosts == hosts[..n] + [hosts[n]];
    if n > 0 {
      var before := LeastOf(hosts[..n]);
      if before.priority < m.priority {
        m := before;
      }
    }
  }

  // A settled pool with two hosts of least priority can change its leader again.
  lemma SettledCanMove(w: World) returns (id: nat)
    requires Settled(w)
    ensures OneIsLeast(w.db.hosts) || CycleTrace(w, GoodEnv(id)) != []
  {
    hide *;
    SettledParts(w);
    id := 0;
    if !OneIsLeast(w.db.hosts) {
      var b := AnotherIsLeast(w.db.hosts, w.db.leader);
      id := b.id;
      var env := GoodEnv(id);
      GoodEnvIsGood(id, w.db.hosts);
      GoodEnvConnects(env, w.db.hosts);
      SettledChecks(w, env);
      BestOfAlive(w.db.hosts, b);
      ValidIsDistinct(w.db);
      AnyBestReadyCanWin(w.db.hosts, w.db.leader, b);
      FirstElectionIs(w, env);
      ElectedIsBest(w, env);
      GoodCycle(w, env);
      CommittedInTrace(CycleTrace(w, env));
    }
  }

  lemma BestOfAlive(hosts: seq<Host>, b: Host)
    requires AllAlive(hosts) && b in hosts && forall h :: h in hosts ==> b.priority <= h.priority
    ensures IsBestReady(b, hosts)
  {
  }

  lemma CommittedInTrace(t: seq<Effect>)
    ensures |ReportOf(t).committed| > 0 ==> t != []
  {
  }

  // An empty table is told about in every cycle.
  lemma EmptyIsNeverSilent(w: World, env: Env)
    requires ValidIds(w.db) && w.db.hosts == []
    ensures CycleTrace(w, env) != []
  {
    CycleIs(w, env);
    CheckedRows(w, env);
    hide CycleTrace, CheckedDb, CheckTrace, Replay, ReachableIds;
    assert CheckedDb(w, env).hosts == [];
    assert CycleLoop(w, env).trace != [];
  }

  // Two good cycles and a third that has no effect.
  ghost predicate ThirdIsSilent(w: World, envs: seq<Env>) {
    |envs| == 3 ==> CycleTrace(Reach(w, Polls(envs[..2])), envs[2]) == []
  }

  // Good conditions settle a pool for good, whatever the order of equals,
  // exactly when exactly one of its hosts has the least priority.
  lemma ConvergesExactly(w: World)
    requires ValidIds(w.db)
    ensures (forall envs :: AllGood(envs, w.db.hosts) ==> ThirdIsSilent(w, envs)) <==> OneIsLeast(w.db.hosts)
  {
    hide *;
    if OneIsLeast(w.db.hosts) {
      forall envs | AllGood(envs, w.db.hosts) ensures ThirdIsSilent(w, envs) {
        if |envs| == 3 {
          ThreeGood(envs, w.db.hosts);
          Converges(w, envs[..2], envs[2]);
        }
        ThirdIs(w, envs);
      }
    } else {
      var envs := MovingEnvs(w);
    }
  }

  lemma ThreeGood(envs: seq<Env>, hosts: seq<Host>)
    requires |envs| == 3
    ensures AllGood(envs, hosts) <==> AllGood(envs[..2], hosts) && IsGood(envs[2], hosts)
  {
    hide IsGood;
  }

  lemma ThirdIs(w: World, envs: seq<Env>)
    ensures ThirdIsSilent(w, envs) <==>
      (|envs| == 3 ==> CycleTrace(Reach(w, Polls(envs[..2])), envs[2]) == [])
  {
    hide CycleTrace, Reach;
  }

  lemma MovingEnvs(w: World) returns (envs: seq<Env>)
    requires ValidIds(w.db) && !OneIsLeast(w.db.hosts)
    ensures AllGood(envs, w.db.hosts) && !ThirdIsSilent(w, envs)
  {
    hide *;
    var two := [GoodEnv(0), GoodEnv(0)];
    TwoGood(GoodEnv(0), w.db.hosts);
    var after := Reach(w, Polls(two));
    var id := 0;
    if |w.db.hosts| > 0 {
      GoodRun(w, two);
      StageIs(after, 2);
      LeastForSame(w.db.hosts, after.db.hosts);
      id := SettledCanMove(after);
    } else {
      EmptyStays(w, two);
      EmptyIsNeverSilent(after, GoodEnv(0));
    }
    envs := two + [GoodEnv(id)];
    assert envs[..2] == two;
    GoodEnvIsGood(id, w.db.hosts);
    ThreeGood(envs, w.db.hosts);
    ThirdIs(w, envs);
  }

  lemma TwoGood(env: Env, hosts: seq<Host>)
    requires env == GoodEnv(0)
    ensures AllGood([env, env], hosts)
  {
    hide IsGood, GoodEnv;
    GoodEnvIsGood(0, hosts);
  }

  lemma SameLength(before: seq<Host>, after: seq<Host>)
    requires SameHosts(before, after)
    ensures |after| == |before|
  {
  }

  lemma {:induction false} EmptyStays(w: World, envs: seq<Env>)
    requires ValidIds(w.db) && w.db.hosts == []
    ensures ValidIds(Reach(w, Polls(envs)).db) && Reach(w, Polls(envs)).db.hosts == []
  {
    hide *;
    if |envs| == 0 {
      BeginsAt(w);
    } else {
      var before := envs[..|envs| - 1];
      EmptyStays(w, before);
      PollsStep(w, envs);
      CycleKeepsHosts(Reach(w, Polls(before)), envs[|envs| - 1]);
      SameLength(Reach(w, Polls(before)).db.hosts, Reach(w, Polls(envs)).db.hosts);
    }
  }
}
