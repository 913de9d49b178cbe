// The flap bound cannot be improved: one host with the right rhythm of
// heartbeats dies exactly as often as the bound allows.
module FlapSharpness {
  import opened Models
  import opened Elections
  import opened Cycles
  import opened CheckPhase
  import opened CycleTheorems
  import opened Histories
  import opened Runs
  import opened Flapping

  function Row(state: HostState): Host {
    Host(1, "192.0.2.1", 0, "default", 0, "", "", state, false)
  }

  function Single(state: HostState): Db {
    Db([Row(state)], 2, {"default"}, 1, [], GlobalDns("", "", "", "", "", ""))
  }

  // Three lost heartbeats, then two good ones.
  function Beat(n: nat): Heartbeat {
    if n % 5 < 3 then Missing else Fresh(true, true, 0, 0)
  }

  function BeatEnv(n: nat): Env {
    Env((id: nat) => Beat(n), (a: nat) => 0, (i: nat) => true, true, (a: nat) => (id: nat) => 0)
  }

  ghost function Beats(n: nat): seq<Step> {
    seq(n, (i: nat) => Poll(BeatEnv(i)))
  }

  const START := World(Single(Ready), NO_STREAKS, false)

  // Where n beats leave the world.
  predicate InPhase(w: World, n: nat) {
    && w.db == Single(if n % 5 < 3 then Ready else Dead)
    && (n % 5 < 3 ==> Streak(w.streaks.fail, 1) == n % 5)
    && (n % 5 >= 3 ==> Streak(w.streaks.recover, 1) == n % 5 - 3)
  }

  lemma SingleIsValid(state: HostState)
    ensures ValidIds(Single(state)) && Present(Single(state).hosts, 1)
    ensures FindHost(Single(state).hosts, 1) == Some(Row(state))
  {
    var db := Single(state);
    assert db.hosts[0] == Row(state) && Row(state) in db.hosts;
    FindHostIsRow(db.hosts, 0);
  }

  function StateAt(n: nat): HostState {
    if n % 5 < 3 then Ready else Dead
  }

  lemma PhaseParts(w: World, n: nat)
    requires InPhase(w, n)
    ensures ValidIds(w.db) && DistinctIds(w.db.hosts) && w.db == Single(StateAt(n))
    ensures w.db.hosts == [Row(StateAt(n))] && w.db.leader == 1 && Row(StateAt(n)).id == 1
    ensures FindHost(w.db.hosts, 1) == Some(Row(StateAt(n))) && Present(w.db.hosts, 1)
  {
    SingleIsValid(StateAt(n));
  }

  lemma BeatChecks(w: World, n: nat)
    requires InPhase(w, n)
    ensures CheckedRow(Row(StateAt(n)), w.streaks, BeatEnv(n)) == Row(StateAt(n + 1))
    ensures KilledByCheck(Row(StateAt(n)), w.streaks, BeatEnv(n)) == if n % 5 == 2 then 1 else 0
  {
  }

  lemma PhaseIf(w: World, after: World, n: nat)
    requires InPhase(w, n) && |after.db.hosts| == 1
    requires after.db.hosts[0] == Row(StateAt(n + 1)) && after.db == w.db.(hosts := after.db.hosts)
    requires Streak(after.streaks.fail, 1) == FailAfter(w.streaks, 1, BeatEnv(n))
    requires Streak(after.streaks.recover, 1) == RecoverAfter(w.streaks, 1, BeatEnv(n))
    ensures InPhase(after, n + 1)
  {
    assert after.db.hosts == [Row(StateAt(n + 1))];
  }

  // With one host, already the stored leader, no cycle elects anyone else.
  lemma NobodyElse(w: World, env: Env)
    requires ValidIds(w.db) && |w.db.hosts| == 1 && w.db.leader == 1 && w.db.hosts[0].id == 1
    ensures !FirstElection(w, env).changed
  {
    hide CheckedDb, ElectionOf;
    CheckedRows(w, env);
    var db := CheckedDb(w, env);
    assert db.hosts == [db.hosts[0]];
  }

  lemma BeatMoves(w: World, n: nat)
    requires InPhase(w, n)
    ensures InPhase(Cycle(w, BeatEnv(n)), n + 1)
    ensures CheckKills(CycleTrace(w, BeatEnv(n)), 1) == if n % 5 == 2 then 1 else 0
    ensures Present(w.db.hosts, 1)
  {
    hide *;
    var env := BeatEnv(n);
    PhaseParts(w, n);
    BeatChecks(w, n);
    NobodyElse(w, env);
    UnchangedCycle(w, env);
    CheckedRows(w, env);
    CycleKills(w, env, 1);
    CycleStreaks(w, env);
    CountHostsAt(w.streaks, w.db.hosts, env, Row(StateAt(n)));
    PhaseIf(w, Cycle(w, env), n);
  }

  lemma {:induction false} BeatsReach(n: nat)
    ensures InPhase(Reach(START, Beats(n)), n)
    ensures CyclesWith(START, Beats(n), 1) == n
    ensures CheckKills(RunTrace(START, Beats(n)), 1) == (n + 2) / 5
  {
    hide *;
    if n == 0 {
      BeatsStart();
    } else {
      BeatsReach(n - 1);
      BeatsStep(n);
      RunContinues(START, Beats(n), 1);
      BeatMoves(Reach(START, Beats(n - 1)), n - 1);
    }
  }

  lemma BeatsStep(n: nat)
    requires n > 0
    ensures |Beats(n)| == n && Beats(n)[..n - 1] == Beats(n - 1)
    ensures Beats(n)[n - 1] == Poll(BeatEnv(n - 1)) && IsCycle(Beats(n)[n - 1])
  {
    hide BeatEnv;
  }

  lemma BeatsStart()
    ensures InPhase(Reach(START, Beats(0)), 0)
    ensures CyclesWith(START, Beats(0), 1) == 0 && CheckKills(RunTrace(START, Beats(0)), 1) == 0
  {
    RunBegins(START, 1);
    assert Beats(0) == [];
  }

  // For every N there is a run of N cycles that meets every condition of the
  // bound and kills its host exactly (N + 2) / 5 times.
  lemma FlapBoundIsReached(n: nat)
    ensures Sound(START) && START.streaks == NO_STREAKS
    ensures |Beats(n)| == n && forall i :: 0 <= i < n ==> LeavesAlone(Beats(n)[i], 1)
    ensures CyclesWith(START, Beats(n), 1) == n
    ensures CheckKills(RunTrace(START, Beats(n)), 1) == (CyclesWith(START, Beats(n), 1) + 2) / 5
  {
    hide *;
    StartIsSound();
    BeatsReach(n);
    BeatsLeaveAlone(n);
  }

  lemma StartIsSound()
    ensures Sound(START) && START.streaks == NO_STREAKS
  {
    SingleIsValid(Ready);
    assert START.db.hosts == [Row(Ready)];
  }

  lemma BeatsLeaveAlone(n: nat)
    ensures |Beats(n)| == n && forall i :: 0 <= i < n ==> LeavesAlone(Beats(n)[i], 1)
  {
    hide BeatEnv;
  }
}
