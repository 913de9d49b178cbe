// Worlds in which a cycle or a run does what one would not expect of it.
module Witnesses {
  import opened Text
  import opened Models
  import opened Elections
  import opened Circuits
  import opened Cycles
  import opened CheckPhase
  import opened CycleTheorems
  import opened Histories
  import opened Runs
  import opened TraceSafety
  import opened Thrashing
  import opened Convergence
  import FlapSharpness

  // Three Ready hosts with good heartbeats, none of which can be connected

  function Trio(id: nat): Host {
    Host(id, "192.0.2.1", id, "default", 0, "connect", "", Ready, false)
  }

  const TRIO := Db([Trio(1), Trio(2), Trio(3)], 4, {"default"}, 0, [], GlobalDns("", "", "", "", "", ""))

  const NO_CONNECT :=
    Env((id: nat) => Fresh(true, true, 0, 0), (a: nat) => 1, (i: nat) => true, true, (a: nat) => (id: nat) => 0)

  const TRIO_WORLD := World(TRIO, NO_STREAKS, false)

  lemma TrioChecked(id: nat)
    ensures CheckedRow(Trio(id), NO_STREAKS, NO_CONNECT) == Trio(id)
  {
  }

  lemma {:induction false} AllAreReady(hosts: seq<Host>)
    requires forall h :: h in hosts ==> h.state == Ready
    ensures ReadyHosts(hosts) == hosts
  {
    if |hosts| > 0 {
      var n := |hosts| - 1;
      assert hosts == hosts[..n] + [hosts[n]] && hosts[n] in hosts;
      AllAreReady(hosts[..n]);
    }
  }

  lemma TrioIsSound()
    ensures ValidIds(TRIO) && TRIO_WORLD.db == TRIO && TRIO.leader == 0 && !TRIO_WORLD.open
    ensures TRIO_WORLD.streaks == NO_STREAKS && |TRIO.hosts| == 3
    ensures forall i :: 0 <= i < 3 ==> TRIO.hosts[i] == Trio(i + 1)
  {
  }

  lemma TrioTable()
    ensures CheckedDb(TRIO_WORLD, NO_CONNECT).hosts == TRIO.hosts && CheckedDb(TRIO_WORLD, NO_CONNECT).leader == 0
  {
    hide *;
    TrioIsSound();
    CheckedRows(TRIO_WORLD, NO_CONNECT);
    TrioChecked(1);
    TrioChecked(2);
    TrioChecked(3);
  }

  lemma TrioFails(hosts: seq<Host>)
    requires |hosts| == 3 && forall i :: 0 <= i < 3 ==> hosts[i] == Trio(i + 1)
    ensures AllThreeFail(hosts, NO_CONNECT)
    ensures forall tie: TieBreak :: ElectionOf(hosts, 0, tie).changed
  {
    hide ReadyHosts, TrimSpace, ElectionOf;
    assert forall h :: h in hosts ==> h == Trio(1) || h == Trio(2) || h == Trio(3);
    AllAreReady(hosts);
    CommandIsSet();
    assert hosts[0] in hosts;
  }

  lemma CommandIsSet()
    ensures TrimSpace("connect") != ""
  {
    TrimSpaceKeeps("connect", 'c');
  }

  // After the cycle no host is Ready, and the breaker is closed.
  lemma BreakerMisses()
    ensures
      var after := Cycle(TRIO_WORLD, NO_CONNECT);
      ValidIds(TRIO_WORLD.db) && !after.open && ShouldOpen(after.db.hosts)
  {
    hide *;
    TrioIsSound();
    TrioTable();
    TrioFails(TRIO.hosts);
    FirstElectionIs(TRIO_WORLD, NO_CONNECT);
    BreakerAfterCycle(TRIO_WORLD, NO_CONNECT);
  }

  // One Dead host without a heartbeat, and a restart between two cycles

  const LOST := World(FlapSharpness.Single(Dead), NO_STREAKS, false)

  lemma LostCycle(w: World)
    requires w.db == FlapSharpness.Single(Dead) && !w.open
    ensures
      var env := FlapSharpness.BeatEnv(0);
      Cycle(w, env).db == w.db && Cycle(w, env).open && CircuitEvents(CycleTrace(w, env)) == [true]
  {
    hide *;
    var env := FlapSharpness.BeatEnv(0);
    LostRow(w);
    CheckedRows(w, env);
    LostElection(CheckedDb(w, env), w.db);
    FirstElectionIs(w, env);
    UnchangedCycle(w, env);
    CycleIs(w, env);
    ChecksAreSilent(w, env);
    BreakerOpens(w, env);
    OpeningEvents(BreakerTrace(w, env));
    CircuitEventsConcat(CheckTrace(w.db.hosts, w.streaks, env), BreakerTrace(w, env));
    LostLoop(w, env);
    assert CheckTrace(w.db.hosts, w.streaks, env) + BreakerTrace(w, env) + [] ==
      CheckTrace(w.db.hosts, w.streaks, env) + BreakerTrace(w, env);
  }

  lemma LostRow(w: World)
    requires w.db == FlapSharpness.Single(Dead)
    ensures ValidIds(w.db) && |w.db.hosts| == 1 && w.db.hosts[0].state == Dead
    ensures CheckedRow(w.db.hosts[0], w.streaks, FlapSharpness.BeatEnv(0)) == w.db.hosts[0]
  {
    FlapSharpness.SingleIsValid(Dead);
    assert w.db.hosts == [FlapSharpness.Row(Dead)];
  }

  lemma LostElection(db: Db, was: Db)
    requires |db.hosts| == |was.hosts| == 1 && db.hosts[0] == was.hosts[0] && db == was.(hosts := db.hosts)
    requires db.hosts[0].state == Dead
    ensures db == was && ShouldOpen(db.hosts)
    ensures forall cur: nat, tie: TieBreak :: !ElectionOf(db.hosts, cur, tie).changed
  {
    hide ElectionOf;
    assert db.hosts == was.hosts;
  }

  lemma BreakerOpens(w: World, env: Env)
    requires ShouldOpen(CheckedDb(w, env).hosts) && !w.open
    ensures BreakerTrace(w, env) == [CircuitOpened] + [Notified(CircuitOpenNotice)]
  {
    hide CheckedDb, ShouldOpen;
  }

  lemma LostLoop(w: World, env: Env)
    requires CycleLoop(w, env) == LoopRun([], true)
    ensures CycleLoop(w, env).trace == [] && CycleLoop(w, env).open
  {
  }

  lemma OpeningEvents(t: seq<Effect>)
    requires t == [CircuitOpened] + [Notified(CircuitOpenNotice)]
    ensures CircuitEvents(t) == [true]
  {
    CircuitEventsConcat([CircuitOpened], [Notified(CircuitOpenNotice)]);
    NoCircuitEvents([Notified(CircuitOpenNotice)]);
    assert [CircuitOpened][..0] == [];
  }

  lemma LostRestart(w: World)
    requires w.db == FlapSharpness.Single(Dead)
    ensures Next(w, Restart).db == w.db && !Next(w, Restart).open
  {
    var db := FlapSharpness.Single(Dead);
    assert db.hosts == [FlapSharpness.Row(Dead)];
    TrimSpaceTrims("default");
  }

  // The audit log then says circuit_open twice in a row.
  lemma RestartRepeatsOpen()
    ensures
      var beat := Poll(FlapSharpness.BeatEnv(0));
      CircuitEvents(RunTrace(LOST, [beat, Restart, beat])) == [true, true]
  {
    hide *;
    var env := FlapSharpness.BeatEnv(0);
    var beat := Poll(env);
    var one, two, three := [beat], [beat, Restart], [beat, Restart, beat];
    assert one[..0] == [] && two[..1] == one && three[..2] == two;
    LostStart();
    LostCycle(LOST);
    PollIs(LOST, env);
    OneMoreStep(LOST, one);
    var dead := Reach(LOST, one);
    LostRestart(dead);
    OneMoreStep(LOST, two);
    var restarted := Reach(LOST, two);
    LostCycle(restarted);
    PollIs(restarted, env);
    PollIs(dead, env);
    OneMoreStep(LOST, three);
    RestartIsSilent(dead);
    CircuitEventsConcat(RunTrace(LOST, two), CycleTrace(restarted, env));
    CircuitEventsConcat(RunTrace(LOST, one), TraceOf(dead, Restart));
    CircuitEventsConcat(RunTrace(LOST, []), CycleTrace(LOST, env));
    assert [true] + [] + [true] == [true, true];
  }

  lemma LostStart()
    ensures LOST.db == FlapSharpness.Single(Dead) && !LOST.open
    ensures Reach(LOST, []) == LOST && CircuitEvents(RunTrace(LOST, [])) == []
  {
  }

  lemma RestartIsSilent(w: World)
    ensures CircuitEvents(TraceOf(w, Restart)) == []
  {
  }

  // Two Ready hosts, of which the second by priority is the leader

  function Duo(id: nat): Host {
    Host(id, "192.0.2.1", id, "default", 0, "connect", "", Ready, id == 2)
  }

  const DUO := Db([Duo(1), Duo(2)], 3, {"default"}, 2, [], GlobalDns("", "", "", "", "", ""))

  const DUO_WORLD := World(DUO, NO_STREAKS, false)

  // Good heartbeats; the first connect of a cycle fails, the others work.
  const FIRST_FAILS :=
    Env((id: nat) => Fresh(true, true, 0, 0), (a: nat) => if a == 0 then 1 else 0, (i: nat) => true, true,
        (a: nat) => Favouring(0))

  lemma DuoRows()
    ensures ValidIds(DUO) && DUO_WORLD.db == DUO && DUO.leader == 2 && !DUO_WORLD.open && |DUO.hosts| == 2
    ensures DUO.hosts[0] == Duo(1) && DUO.hosts[1] == Duo(2)
    ensures forall h :: h in DUO.hosts <==> h == Duo(1) || h == Duo(2)
  {
    assert DUO.hosts[0] == Duo(1) && DUO.hosts[1] == Duo(2);
  }

  lemma DuoIsUnsettled()
    ensures Unsettled(DUO_WORLD, Duo(1), Duo(2)) && Adverse(FIRST_FAILS, Duo(1), Duo(2))
  {
    DuoRows();
    FindHostIsRow(DUO.hosts, 0);
    FindHostIsRow(DUO.hosts, 1);
    CommandIsSet();
    hide TrimSpace, FindHost;
  }

  // Here every one of n cycles, for any n, disconnects the leader and commits it again.
  lemma DuoNeverSettles(n: nat)
    ensures ThrashesTimes(RunTrace(DUO_WORLD, Polls(seq(n, (i: nat) => FIRST_FAILS))), n, Duo(1), Duo(2))
  {
    hide *;
    DuoIsUnsettled();
    RunThrashes(DUO_WORLD, seq(n, (i: nat) => FIRST_FAILS), Duo(1), Duo(2));
  }

  lemma DuoIsGood()
    ensures AllNearlyAlive(DUO_WORLD) && IsGood(GoodEnv(0), DUO.hosts) && Agrees(DUO)
  {
    DuoRows();
  }

  // A cycle that commits someone new, stopped right after its flag is set: the
  // flag is then on one host and another is the stored leader.
  lemma TornCommit() returns (k: nat)
    ensures Agrees(DUO_WORLD.db) && IsTorn(DUO_WORLD, GoodEnv(0), k)
    ensures !Agrees(Next(DUO_WORLD, Crash(GoodEnv(0), k)).db)
  {
    hide *;
    var w, env := DUO_WORLD, GoodEnv(0);
    DuoRows();
    DuoIsGood();
    SecondGoodCycle(w, env);
    CycleKeepsHosts(w, env);
    FirstLeads(Cycle(w, env));
    var pre, l := CycleShape(w, env);
    k := FlagAt(CycleTrace(w, env), CheckedDb(w, env), env, pre, l);
    CutAtFlag(w, env, k);
    CrashAgrees(w, env, k);
  }

  lemma FirstLeads(w: World)
    requires Settled(w) && SameHosts(DUO.hosts, w.db.hosts)
    ensures w.db.leader == 1
  {
    DuoRows();
    var l :| IsBestReady(l, w.db.hosts) && l.id == w.db.leader;
    assert w.db.hosts[0] in w.db.hosts;
    var i :| 0 <= i < |w.db.hosts| && w.db.hosts[i] == l;
  }

  lemma FlagAt(t: seq<Effect>, db: Db, env: Env, pre: seq<Effect>, l: Option<Host>) returns (k: nat)
    requires Shaped(t, db, env, pre, l)
    ensures l.Some? ==> 0 < k <= |t| && t[k - 1] == FlagSet(l.value.id)
  {
    hide DnsOf;
    k := 0;
    if l.Some? {
      k := |pre| + 1 + |DnsOf(db, l.value, env).trace| + 2;
    }
  }

  lemma CutAtFlag(w: World, env: Env, k: nat)
    ensures
      var t := CycleTrace(w, env);
      0 < k <= |t| && t[k - 1].FlagSet? && t[k - 1].host != w.db.leader ==> IsTorn(w, env, k)
  {
    hide CycleTrace;
  }
}
