// How often health checks can kill one host, and which state changes any run
// can make.
module Flapping {
  import opened Models
  import opened StateMachines
  import opened Circuits
  import opened Cycles
  import opened Pollers
  import opened CheckPhase
  import opened Failover
  import opened CycleTheorems
  import opened TraceSafety
  import DdnsRules
  import opened Handlers
  import opened Runs
  import opened Histories

  predicate IsCheckKill(e: Effect, id: nat) {
    e.StateChanged? && e.host == id && e.to == Dead && e.cause == HealthCheck
  }

  // How often the check phase kills this host.
  function CheckKills(t: seq<Effect>, id: nat): nat {
    if |t| == 0 then 0 else CheckKills(t[..|t| - 1], id) + if IsCheckKill(t[|t| - 1], id) then 1 else 0
  }

  lemma {:induction false} CheckKillsConcat(t: seq<Effect>, u: seq<Effect>, id: nat)
    ensures CheckKills(t + u, id) == CheckKills(t, id) + CheckKills(u, id)
    decreases |u|
  {
    if |u| == 0 {
      assert t + u == t;
    } else {
      var v := u[..|u| - 1];
      assert (t + u)[..|t + u| - 1] == t + v;
      CheckKillsConcat(t, v, id);
    }
  }

  lemma {:induction false} NoCheckKills(t: seq<Effect>, id: nat)
    requires forall e :: e in t ==> !IsCheckKill(e, id)
    ensures CheckKills(t, id) == 0
  {
    if |t| > 0 {
      assert t[|t| - 1] in t && forall e :: e in t[..|t| - 1] ==> e in t;
      NoCheckKills(t[..|t| - 1], id);
    }
  }

  // One cycle kills a host by health check at most once: if it was not Dead and
  // the checks say it is.
  function KilledByCheck(h: Host, s: Streaks, env: Env): nat {
    if h.state != Dead && CheckedRow(h, s, env).state == Dead then 1 else 0
  }

  lemma OneCheck(h: Host, s: Streaks, env: Env, id: nat)
    ensures CheckKills(CheckEffects(h, ResultOf(h, s, env)), id) == if h.id == id then KilledByCheck(h, s, env) else 0
  {
    var r := ResultOf(h, s, env);
    hide ResultOf;
    CheckOutcome(h, r);
    var t := CheckEffects(h, r);
    if |t| == 1 {
      assert t[0] in t && t[..0] == [];
    }
  }

  lemma {:induction false} ChecksKill(hosts: seq<Host>, s: Streaks, env: Env, id: nat)
    requires DistinctIds(hosts)
    ensures CheckKills(CheckTrace(hosts, s, env), id) ==
      if Present(hosts, id) then KilledByCheck(FindHost(hosts, id).value, s, env) else 0
  {
    hide CheckEffects, ResultOf, CheckedRow, KilledByCheck;
    if |hosts| > 0 {
      var n := |hosts| - 1;
      ChecksKill(hosts[..n], s, env, id);
      OneCheck(hosts[n], s, env, id);
      CheckKillsConcat(CheckTrace(hosts[..n], s, env), CheckEffects(hosts[n], ResultOf(hosts[n], s, env)), id);
      FindInFront(hosts, id);
    }
  }

  lemma FindInFront(hosts: seq<Host>, id: nat)
    requires DistinctIds(hosts) && |hosts| > 0
    ensures
      var n := |hosts| - 1;
      FindHost(hosts, id) == if hosts[n].id == id then Some(hosts[n]) else FindHost(hosts[..n], id)
    ensures hosts[|hosts| - 1].id == id ==> FindHost(hosts[..|hosts| - 1], id).None?
  {
    var n := |hosts| - 1;
    assert hosts == hosts[..n] + [hosts[n]];
    if FindHost(hosts[..n], id).Some? {
      var i :| 0 <= i < n && hosts[i] == FindHost(hosts[..n], id).value;
      FindHostIsRow(hosts, i);
    } else if hosts[n].id == id {
      FindHostIsRow(hosts, n);
    }
  }

  // After the checks a cycle changes states only by killing Ready hosts that
  // fail to connect.
  lemma LoopKillsOnly(w: World, env: Env)
    requires ValidIds(w.db)
    ensures forall e :: e in CycleLoop(w, env).trace && e.StateChanged? ==>
      e.from == Ready && e.to == Dead && e.cause == ConnectFailed
  {
    hide *;
    if FirstElection(w, env).changed {
      LoopIsElectLoop(w, env);
      CheckedRows(w, env);
      AllReadyReachable(w, env);
      var db, reach := CheckedDb(w, env), ReachableIds(w.db.hosts, w.streaks, env);
      LoopEffectsKind(db, false, db.leader, reach, env, 0);
      OnlyKills(CycleLoop(w, env).trace, db, db.leader, reach);
    } else {
      IdleLoop(w, env);
      SilentKillsNone(CycleLoop(w, env).trace);
    }
  }

  lemma OnlyKills(t: seq<Effect>, db: Db, cur: nat, reach: set<nat>)
    requires LoopEffects(t, db, cur, reach)
    ensures forall e :: e in t && e.StateChanged? ==> e.from == Ready && e.to == Dead && e.cause == ConnectFailed
  {
    forall e | e in t && e.StateChanged? ensures e.from == Ready && e.to == Dead && e.cause == ConnectFailed {
      assert LoopEffect(e, db, cur, reach);
    }
  }

  lemma SilentKillsNone(t: seq<Effect>)
    requires forall e :: e in t ==> IsSilent(e)
    ensures forall e :: e in t ==> !e.StateChanged?
  {
  }

  lemma CycleKills(w: World, env: Env, id: nat)
    requires ValidIds(w.db)
    ensures CheckKills(CycleTrace(w, env), id) ==
      if Present(w.db.hosts, id) then KilledByCheck(FindHost(w.db.hosts, id).value, w.streaks, env) else 0
  {
    hide *;
    var checks, breaker, rest := CheckTrace(w.db.hosts, w.streaks, env), BreakerTrace(w, env), CycleLoop(w, env).trace;
    ValidIsDistinct(w.db);
    ChecksKill(w.db.hosts, w.streaks, env, id);
    LoopKillsOnly(w, env);
    NeverCheckKills(rest, id);
    BreakerKillsNone(w, env, id);
    CycleIs(w, env);
    CheckKillsConcat(checks, breaker, id);
    CheckKillsConcat(checks + breaker, rest, id);
  }

  lemma NeverCheckKills(t: seq<Effect>, id: nat)
    requires forall e :: e in t && e.StateChanged? ==> e.from == Ready && e.to == Dead && e.cause == ConnectFailed
    ensures CheckKills(t, id) == 0
  {
    NoCheckKills(t, id);
  }

  lemma BreakerKillsNone(w: World, env: Env, id: nat)
    ensures CheckKills(BreakerTrace(w, env), id) == 0
  {
    hide CheckedDb, ShouldOpen;
    NoCheckKills(BreakerTrace(w, env), id);
  }

  // The state a host ends a cycle in.
  lemma StateAfterCycle(w: World, env: Env, h: Host)
    requires ValidIds(w.db) && h in w.db.hosts
    ensures FindHost(Cycle(w, env).db.hosts, h.id).Some?
    ensures
      var after := FindHost(Cycle(w, env).db.hosts, h.id).value.state;
      after == CheckedRow(h, w.streaks, env).state || after == Dead
  {
    hide *;
    ValidIsDistinct(w.db);
    var i := IndexOf(w.db.hosts, h);
    CheckedRows(w, env);
    CycleParts(w, env);
    LoopKillsOnly(w, env);
    KilledStates(CycleLoop(w, env).trace, CheckedDb(w, env).hosts[i]);
    RowAtEnd(CycleLoop(w, env).trace, CheckedDb(w, env), i);
    SameId(h, w.streaks, env);
  }

  lemma IndexOf(hosts: seq<Host>, h: Host) returns (i: nat)
    requires h in hosts
    ensures i < |hosts| && hosts[i] == h
  {
    i :| 0 <= i < |hosts| && hosts[i] == h;
  }

  lemma SameId(h: Host, s: Streaks, env: Env)
    ensures CheckedRow(h, s, env).id == h.id
  {
  }

  lemma RowAtEnd(t: seq<Effect>, db: Db, i: nat)
    requires ValidIds(db) && i < |db.hosts|
    ensures FindHost(Replay(t, db).hosts, db.hosts[i].id) == Some(RowAfterAll(t, db.hosts[i]))
  {
    FindHostIsRow(Replay(t, db).hosts, i);
  }

  // The flap bound

  predicate IsCycle(step: Step) {
    step.Poll? || step.Crash?
  }

  // How many cycles, stopped ones included, had this host in the table.
  ghost function CyclesWith(w0: World, steps: seq<Step>, id: nat): nat {
    if |steps| == 0 then 0
    else
      var before, step := steps[..|steps| - 1], steps[|steps| - 1];
      CyclesWith(w0, before, id) + if IsCycle(step) && Present(Reach(w0, before).db.hosts, id) then 1 else 0
  }

  // The credit a host has saved up towards its next death by health check, in
  // cycles: each such death costs five, and two are given at the start.
  ghost predicate Credit(w: World, id: nat, cycles: nat, kills: nat) {
    var credit := cycles + 2 - 5 * kills;
    var fail, recover := Streak(w.streaks.fail, id), Streak(w.streaks.recover, id);
    && credit >= 0
    && (Present(w.db.hosts, id) ==>
         if FindHost(w.db.hosts, id).value.state == Dead then credit >= (if recover < 2 then recover else 2)
         else fail <= 2 && credit >= 2 + fail)
    && (id >= w.db.nextId ==> credit >= 2)
  }

  lemma CycleCredit(w: World, env: Env, id: nat, cycles: nat, kills: nat)
    requires ValidIds(w.db) && Credit(w, id, cycles, kills)
    ensures Credit(Cycle(w, env), id,
                   cycles + (if Present(w.db.hosts, id) then 1 else 0),
                   kills + CheckKills(CycleTrace(w, env), id))
  {
    hide *;
    ValidIsDistinct(w.db);
    CycleKills(w, env, id);
    CycleStreaks(w, env);
    CycleTables(w, env, id);
    if Present(w.db.hosts, id) {
      var h := PresentHost(w.db.hosts, id);
      StateAfterCycle(w, env, h);
      CountHostsAt(w.streaks, w.db.hosts, env, h);
      DecidedByStreaks(h, w.streaks, env);
      CreditAfterCycle(w, Cycle(w, env), env, h, cycles, kills);
    } else {
      AbsentHost(w.db.hosts, id);
      CountHostsFrame(w.streaks, w.db.hosts, env, id);
      CreditWithout(w, Cycle(w, env), id, cycles, kills);
    }
  }

  lemma PresentHost(hosts: seq<Host>, id: nat) returns (h: Host)
    requires Present(hosts, id)
    ensures FindHost(hosts, id) == Some(h) && h in hosts && h.id == id
  {
    h := FindHost(hosts, id).value;
  }

  lemma AbsentHost(hosts: seq<Host>, id: nat)
    requires !Present(hosts, id)
    ensures forall h :: h in hosts ==> h.id != id
  {
  }

  lemma CreditAfterCycle(w: World, after: World, env: Env, h: Host, cycles: nat, kills: nat)
    requires FindHost(w.db.hosts, h.id) == Some(h) && Credit(w, h.id, cycles, kills)
    requires FindHost(after.db.hosts, h.id).Some? && after.db.nextId == w.db.nextId && ValidIds(w.db)
    requires Streak(after.streaks.fail, h.id) == FailAfter(w.streaks, h.id, env)
    requires Streak(after.streaks.recover, h.id) == RecoverAfter(w.streaks, h.id, env)
    requires
      var state, checked := FindHost(after.db.hosts, h.id).value.state, CheckedRow(h, w.streaks, env).state;
      && (state == checked || state == Dead)
      && (h.state != Dead ==> (checked == Dead <==> FailAfter(w.streaks, h.id, env) >= HOST_FAIL_THRESHOLD))
      && (h.state == Dead && checked == Ready ==> RecoverAfter(w.streaks, h.id, env) >= HOST_RECOVER_THRESHOLD)
      && (h.state == Dead ==> checked == Ready || checked == Dead)
    ensures Credit(after, h.id, cycles + 1, kills + KilledByCheck(h, w.streaks, env))
  {
    hide CheckedRow;
  }

  lemma CreditWithout(w: World, after: World, id: nat, cycles: nat, kills: nat)
    requires Credit(w, id, cycles, kills) && after.db.nextId == w.db.nextId
    requires !Present(w.db.hosts, id) && !Present(after.db.hosts, id)
    ensures Credit(after, id, cycles, kills)
  {
  }

  lemma CycleTables(w: World, env: Env, id: nat)
    requires ValidIds(w.db)
    ensures Cycle(w, env).db.nextId == w.db.nextId
    ensures Present(Cycle(w, env).db.hosts, id) <==> Present(w.db.hosts, id)
  {
    hide *;
    CycleDb(w, env);
    ReplayTables(CycleTrace(w, env), w.db);
    SamePresence(w.db.hosts, Cycle(w, env).db.hosts, id);
  }

  lemma SamePresence(before: seq<Host>, after: seq<Host>, id: nat)
    requires |before| == |after| && forall i :: 0 <= i < |before| ==> after[i].id == before[i].id
    ensures Present(before, id) <==> Present(after, id)
  {
    if Present(before, id) {
      var i :| 0 <= i < |before| && before[i] == FindHost(before, id).value;
      assert after[i] in after;
    }
    if Present(after, id) {
      var i :| 0 <= i < |after| && after[i] == FindHost(after, id).value;
      assert before[i] in before;
    }
  }

  // No operator override of this host.
  predicate LeavesAlone(step: Step, id: nat) {
    step.Override? ==> step.id != id
  }

  lemma StepCredit(w: World, step: Step, id: nat, cycles: nat, kills: nat)
    requires Sound(w) && Credit(w, id, cycles, kills) && LeavesAlone(step, id) && !IsCycle(step)
    ensures Credit(Next(w, step), id, cycles, kills)
  {
    hide Sound, Credit, Present, RulesSaved, CreatePool, DeletePool;
    SoundParts(w);
    match step
    case AddHost(req) => AddCredit(w, req, id, cycles, kills);
    case EditHost(x, req) => EditCredit(w, x, req, id, cycles, kills);
    case RemoveHost(x) => RemoveCredit(w, x, id, cycles, kills);
    case AddPool(name) => PoolsKeepHosts(w.db, name); SameHostsCredit(w, Next(w, step), id, cycles, kills);
    case RemovePool(name) => PoolsKeepHosts(w.db, name); SameHostsCredit(w, Next(w, step), id, cycles, kills);
    case SaveRules(raw) => RulesKeepHosts(w.db, raw); SameHostsCredit(w, Next(w, step), id, cycles, kills);
    case Override(x, state) => OverrideCredit(w, x, state, id, cycles, kills);
    case Restart => RestartCredit(w, id, cycles, kills);
    case _ =>
  }

  lemma PoolsKeepHosts(db: Db, name: string)
    ensures CreatePool(db, name).db == db.(pools := CreatePool(db, name).db.pools)
    ensures DeletePool(db, name).db == db.(pools := DeletePool(db, name).db.pools)
  {
  }

  lemma RulesKeepHosts(db: Db, raw: DdnsRules.RawRules)
    ensures RulesSaved(db, raw) == db.(rules := RulesSaved(db, raw).rules)
  {
  }

  lemma SameHostsCredit(w: World, after: World, id: nat, cycles: nat, kills: nat)
    requires Credit(w, id, cycles, kills)
    requires after.db.hosts == w.db.hosts && after.db.nextId == w.db.nextId && after.streaks == w.streaks
    ensures Credit(after, id, cycles, kills)
  {
  }

  lemma AddCredit(w: World, req: HostRequest, id: nat, cycles: nat, kills: nat)
    requires ValidIds(w.db) && OldKeys(w.streaks, w.db.nextId) && Credit(w, id, cycles, kills)
    ensures Credit(w.(db := CreateHost(w.db, req).db), id, cycles, kills)
  {
    hide NextPriority, PoolExists;
    var after := CreateHost(w.db, req).db;
    if after != w.db {
      var h := after.hosts[|w.db.hosts|];
      assert after.hosts == w.db.hosts + [h];
      AddKeepsIds(w.db, h);
      FindInFront(after.hosts, id);
      assert after.hosts[..|w.db.hosts|] == w.db.hosts;
    }
  }

  lemma AddKeepsIds(db: Db, h: Host)
    requires ValidIds(db) && h.id == db.nextId
    ensures DistinctIds(db.hosts + [h])
  {
    assert forall i :: 0 <= i < |db.hosts| ==> db.hosts[i] in db.hosts;
  }

  // A change that keeps the ids, and the state of this host, keeps its credit.
  lemma SameStateCredit(w: World, after: World, id: nat, cycles: nat, kills: nat)
    requires Credit(w, id, cycles, kills)
    requires DistinctIds(w.db.hosts) && DistinctIds(after.db.hosts) && |after.db.hosts| == |w.db.hosts|
    requires forall i :: 0 <= i < |w.db.hosts| ==> after.db.hosts[i].id == w.db.hosts[i].id
    requires forall i :: 0 <= i < |w.db.hosts| && w.db.hosts[i].id == id ==>
      after.db.hosts[i].state == w.db.hosts[i].state
    requires after.db.nextId == w.db.nextId && after.streaks == w.streaks
    ensures Credit(after, id, cycles, kills)
  {
    hide DistinctIds;
    SamePresence(w.db.hosts, after.db.hosts, id);
    if Present(w.db.hosts, id) {
      var i := IndexOf(w.db.hosts, FindHost(w.db.hosts, id).value);
      FindHostIsRow(after.db.hosts, i);
    }
  }

  lemma EditCredit(w: World, x: nat, req: HostRequest, id: nat, cycles: nat, kills: nat)
    requires ValidIds(w.db) && Credit(w, id, cycles, kills)
    ensures Credit(w.(db := UpdateHost(w.db, x, req).db), id, cycles, kills)
  {
    hide Credit, Edited, SlotTaken, PoolExists;
    var after := UpdateHost(w.db, x, req).db;
    if after != w.db {
      var row := FindHost(w.db.hosts, x).value;
      EditedKeeps(row, req);
      var k := IndexOf(w.db.hosts, row);
      OnlyRowChanges(w.db.hosts, Edited(row, req), k);
      SameStateCredit(w, w.(db := after), id, cycles, kills);
    }
  }

  lemma EditedKeeps(h: Host, req: HostRequest)
    ensures Edited(h, req).id == h.id && Edited(h, req).state == h.state
  {
  }

  lemma RemoveCredit(w: World, x: nat, id: nat, cycles: nat, kills: nat)
    requires ValidIds(w.db) && Credit(w, id, cycles, kills)
    ensures Credit(w.(db := DeleteHost(w.db, x).db), id, cycles, kills)
  {
    var after := DeleteHost(w.db, x).db;
    WithoutFacts(w.db.hosts, x);
    if Present(after.hosts, id) {
      var h := FindHost(after.hosts, id).value;
      var i :| 0 <= i < |w.db.hosts| && w.db.hosts[i] == h;
      FindHostIsRow(w.db.hosts, i);
    }
  }

  lemma OverrideCredit(w: World, x: nat, state: HostState, id: nat, cycles: nat, kills: nat)
    requires ValidIds(w.db) && Credit(w, id, cycles, kills) && x != id
    ensures Credit(w.(db := ForceState(w.db, x, state)), id, cycles, kills)
  {
    hide Credit;
    SameStateCredit(w, w.(db := ForceState(w.db, x, state)), id, cycles, kills);
  }

  lemma RestartCredit(w: World, id: nat, cycles: nat, kills: nat)
    requires Credit(w, id, cycles, kills)
    ensures Credit(Next(w, Restart), id, cycles, kills)
  {
    hide HostPools;
  }

  ghost predicate ChangesTo(t: seq<Effect>, id: nat, state: HostState) {
    forall e :: e in t && e.StateChanged? && e.host == id ==> e.to == Dead || e.to == state
  }

  // What a cycle can change a host's state to.
  lemma CycleStateChanges(w: World, env: Env, h: Host)
    requires ValidIds(w.db) && h in w.db.hosts
    ensures ChangesTo(CycleTrace(w, env), h.id, CheckedRow(h, w.streaks, env).state)
  {
    hide *;
    CycleIs(w, env);
    ChecksChangeTo(w, env, h);
    LoopKillsOnly(w, env);
    BreakerChangesNone(w, env);
    ChangesJoin(CheckTrace(w.db.hosts, w.streaks, env), BreakerTrace(w, env), CycleLoop(w, env).trace,
                h.id, CheckedRow(h, w.streaks, env).state);
  }

  lemma ChecksChangeTo(w: World, env: Env, h: Host)
    requires ValidIds(w.db) && h in w.db.hosts
    ensures ChangesTo(CheckTrace(w.db.hosts, w.streaks, env), h.id, CheckedRow(h, w.streaks, env).state)
  {
    hide CheckTrace, CheckedRow;
    CheckTraceKind(w.db.hosts, w.streaks, env);
    var i := IndexOf(w.db.hosts, h);
  }

  lemma ChangesJoin(t: seq<Effect>, u: seq<Effect>, v: seq<Effect>, id: nat, state: HostState)
    requires ChangesTo(t, id, state) && forall e :: e in u ==> !e.StateChanged?
    requires forall e :: e in v && e.StateChanged? ==> e.from == Ready && e.to == Dead && e.cause == ConnectFailed
    ensures ChangesTo(t + u + v, id, state)
  {
  }

  lemma BreakerChangesNone(w: World, env: Env)
    ensures forall e :: e in BreakerTrace(w, env) ==> !e.StateChanged?
  {
    hide CheckedDb, ShouldOpen;
  }

  // A host whose changes are all to Dead or to this state ends as it was, or Dead,
  // or in this state; Dead if they are all to Dead and there is one.
  lemma {:induction false} StatesAmong(t: seq<Effect>, h: Host, state: HostState)
    requires ChangesTo(t, h.id, state)
    ensures RowAfterAll(t, h).state == h.state || RowAfterAll(t, h).state == Dead || RowAfterAll(t, h).state == state
    ensures state == Dead && (exists e :: e in t && IsCheckKill(e, h.id)) ==> RowAfterAll(t, h).state == Dead
  {
    if |t| > 0 {
      var n := |t| - 1;
      assert t[n] in t && forall e :: e in t[..n] ==> e in t;
      assert forall e :: e in t ==> e in t[..n] || e == t[n];
      StatesAmong(t[..n], h, state);
    }
  }

  lemma {:induction false} KillIsIn(t: seq<Effect>, id: nat)
    ensures CheckKills(t, id) > 0 ==> exists e :: e in t && IsCheckKill(e, id)
  {
    if |t| > 0 {
      KillIsIn(t[..|t| - 1], id);
      assert t[|t| - 1] in t && forall e :: e in t[..|t| - 1] ==> e in t;
    }
  }

  // What a cycle cut short has done to one host.
  lemma CutKills(w: World, env: Env, k: nat, h: Host)
    requires ValidIds(w.db) && FindHost(w.db.hosts, h.id) == Some(h)
    ensures
      var t, after := CutTrace(w, env, k), RowAfterAll(CutTrace(w, env, k), h).state;
      && CheckKills(t, h.id) <= KilledByCheck(h, w.streaks, env)
      && (CheckKills(t, h.id) > 0 ==> after == Dead)
      && (after == h.state || after == Dead || after == CheckedRow(h, w.streaks, env).state)
  {
    hide *;
    var n := CutLength(w, env, k);
    var t := CycleTrace(w, env);
    assert t == t[..n] + t[n..];
    CheckKillsConcat(t[..n], t[n..], h.id);
    CycleKills(w, env, h.id);
    HostIsPresent(w.db.hosts, h);
    CycleStateChanges(w, env, h);
    ChangesBefore(t, n, h.id, CheckedRow(h, w.streaks, env).state);
    StatesAmong(t[..n], h, CheckedRow(h, w.streaks, env).state);
    KillIsIn(t[..n], h.id);
    KilledIsDead(h, w.streaks, env);
  }

  lemma ChangesBefore(t: seq<Effect>, n: nat, id: nat, state: HostState)
    requires ChangesTo(t, id, state) && n <= |t|
    ensures ChangesTo(t[..n], id, state)
  {
  }

  lemma HostIsPresent(hosts: seq<Host>, h: Host)
    requires FindHost(hosts, h.id) == Some(h)
    ensures Present(hosts, h.id) && h in hosts
  {
  }

  lemma KilledIsDead(h: Host, s: Streaks, env: Env)
    ensures KilledByCheck(h, s, env) > 0 ==> CheckedRow(h, s, env).state == Dead
  {
  }

  lemma CrashCredit(w: World, env: Env, k: nat, id: nat, cycles: nat, kills: nat)
    requires ValidIds(w.db) && Credit(w, id, cycles, kills)
    ensures Credit(Next(w, Crash(env, k)), id,
                   cycles + (if Present(w.db.hosts, id) then 1 else 0),
                   kills + CheckKills(CutTrace(w, env, k), id))
  {
    var t, after := CutTrace(w, env, k), Next(w, Crash(env, k));
    CrashTables(w, env, k, id);
    if Present(w.db.hosts, id) {
      var h := FindHost(w.db.hosts, id).value;
      CutKills(w, env, k, h);
      CutRow(w, env, k, h);
      DecidedByStreaks(h, w.streaks, env);
      CreditAfterCut(w, after, env, h, cycles, kills, CheckKills(t, id));
    } else {
      CutKillsNone(w, env, k, id);
    }
  }

  lemma CutRow(w: World, env: Env, k: nat, h: Host)
    requires ValidIds(w.db) && h in w.db.hosts
    ensures FindHost(Next(w, Crash(env, k)).db.hosts, h.id) == Some(RowAfterAll(CutTrace(w, env, k), h))
  {
    hide *;
    CrashIs(w, env, k);
    StartupHosts(Replay(CutTrace(w, env, k), w.db));
    var i := IndexOf(w.db.hosts, h);
    RowAtEnd(CutTrace(w, env, k), w.db, i);
  }

  lemma StartupHosts(db: Db)
    ensures World(Startup(db), NO_STREAKS, false).db.hosts == db.hosts
    ensures World(Startup(db), NO_STREAKS, false).db.nextId == db.nextId
    ensures World(Startup(db), NO_STREAKS, false).streaks == NO_STREAKS
  {
    hide HostPools;
  }

  lemma CrashTables(w: World, env: Env, k: nat, id: nat)
    requires ValidIds(w.db)
    ensures
      var after := Next(w, Crash(env, k));
      && after.streaks == NO_STREAKS && after.db.nextId == w.db.nextId
      && (Present(after.db.hosts, id) <==> Present(w.db.hosts, id))
  {
    hide *;
    CrashIs(w, env, k);
    StartupHosts(Replay(CutTrace(w, env, k), w.db));
    ReplayTables(CutTrace(w, env, k), w.db);
    SamePresence(w.db.hosts, Replay(CutTrace(w, env, k), w.db).hosts, id);
  }

  lemma CutKillsNone(w: World, env: Env, k: nat, id: nat)
    requires ValidIds(w.db) && !Present(w.db.hosts, id)
    ensures CheckKills(CutTrace(w, env, k), id) == 0
  {
    hide *;
    var n := CutLength(w, env, k);
    var t := CycleTrace(w, env);
    assert t == t[..n] + t[n..];
    CheckKillsConcat(t[..n], t[n..], id);
    CycleKills(w, env, id);
  }

  lemma CreditAfterCut(w: World, after: World, env: Env, h: Host, cycles: nat, kills: nat, more: nat)
    requires ValidIds(w.db) && FindHost(w.db.hosts, h.id) == Some(h) && Credit(w, h.id, cycles, kills)
    requires after.streaks == NO_STREAKS && after.db.nextId == w.db.nextId
    requires FindHost(after.db.hosts, h.id).Some? && more <= KilledByCheck(h, w.streaks, env)
    requires
      var state, checked := FindHost(after.db.hosts, h.id).value.state, CheckedRow(h, w.streaks, env).state;
      && (state == h.state || state == Dead || state == checked) && (more > 0 ==> state == Dead)
      && (h.state != Dead ==> (checked == Dead <==> FailAfter(w.streaks, h.id, env) >= HOST_FAIL_THRESHOLD))
      && (h.state == Dead && checked == Ready ==> RecoverAfter(w.streaks, h.id, env) >= HOST_RECOVER_THRESHOLD)
      && (h.state == Dead ==> checked == Ready || checked == Dead)
    ensures Credit(after, h.id, cycles + 1, kills + more)
  {
    hide CheckedRow;
  }

  lemma NoCycle(step: Step)
    ensures !step.Poll? && !step.Crash? ==> !IsCycle(step)
  {
  }

  lemma {:induction false} RunCredit(w0: World, steps: seq<Step>, id: nat, cycles: nat, kills: nat)
    requires Sound(w0) && Credit(w0, id, cycles, kills)
    requires forall i :: 0 <= i < |steps| ==> LeavesAlone(steps[i], id)
    ensures Credit(Reach(w0, steps), id,
                   cycles + CyclesWith(w0, steps, id), kills + CheckKills(RunTrace(w0, steps), id))
  {
    hide *;
    if |steps| == 0 {
      RunBegins(w0, id);
    } else {
      var before, step := steps[..|steps| - 1], steps[|steps| - 1];
      var w := Reach(w0, before);
      RunCredit(w0, before, id, cycles, kills);
      RunKeepsSound(w0, before);
      SoundParts(w);
      RunContinues(w0, steps, id);
      var c, k := cycles + CyclesWith(w0, before, id), kills + CheckKills(RunTrace(w0, before), id);
      if step.Poll? {
        CycleCredit(w, step.env, id, c, k);
      } else if step.Crash? {
        CrashCredit(w, step.env, step.k, id, c, k);
      } else {
        NoCycle(step);
        StepCredit(w, step, id, c, k);
      }
    }
  }

  lemma RunBegins(w0: World, id: nat)
    ensures Reach(w0, []) == w0 && CyclesWith(w0, [], id) == 0 && CheckKills(RunTrace(w0, []), id) == 0
  {
  }

  lemma RunContinues(w0: World, steps: seq<Step>, id: nat)
    requires |steps| > 0
    ensures
      var before, step := steps[..|steps| - 1], steps[|steps| - 1];
      var w := Reach(w0, before);
      && Reach(w0, steps) == (if step.Poll? then Cycle(w, step.env) else Next(w, step))
      && (IsCycle(step) <==> step.Poll? || step.Crash?)
      && CyclesWith(w0, steps, id) ==
         CyclesWith(w0, before, id) + (if IsCycle(step) && Present(w.db.hosts, id) then 1 else 0)
      && CheckKills(RunTrace(w0, steps), id) ==
         CheckKills(RunTrace(w0, before), id) +
         match step
         case Poll(env) => CheckKills(CycleTrace(w, env), id)
         case Crash(env, k) => CheckKills(CutTrace(w, env, k), id)
         case _ => 0
  {
    hide Cycle, CycleTrace, CheckKills, Present, CutTrace;
    var before, step := steps[..|steps| - 1], steps[|steps| - 1];
    CheckKillsConcat(RunTrace(w0, before), TraceOf(Reach(w0, before), step), id);
    NoCheckKills([], id);
  }

  lemma FreshCredit(w: World, id: nat)
    requires w.streaks == NO_STREAKS
    ensures Credit(w, id, 0, 0)
  {
  }

  // Over any run of a fresh poller in which no operator overrides its state, and
  // whatever else happens in between, N cycles with a host in the table kill it
  // by health check at most (N + 2) / 5 times.
  lemma FlapBound(w0: World, steps: seq<Step>, id: nat)
    requires Sound(w0) && w0.streaks == NO_STREAKS
    requires forall i :: 0 <= i < |steps| ==> LeavesAlone(steps[i], id)
    ensures CheckKills(RunTrace(w0, steps), id) <= (CyclesWith(w0, steps, id) + 2) / 5
  {
    hide Sound, Reach, RunTrace, CyclesWith, LeavesAlone;
    FreshCredit(w0, id);
    RunCredit(w0, steps, id, 0, 0);
  }

  // What is saved up never falls below what any later stretch needs.
  lemma CreditAnew(w: World, id: nat, cycles: nat, kills: nat)
    requires Credit(w, id, cycles, kills)
    ensures Credit(w, id, 2, 0)
  {
  }

  lemma {:induction false} RunSplits(w0: World, a: seq<Step>, b: seq<Step>)
    ensures Reach(w0, a + b) == Reach(Reach(w0, a), b)
    ensures RunTrace(w0, a + b) == RunTrace(w0, a) + RunTrace(Reach(w0, a), b)
    decreases |b|
  {
    hide Next, TraceOf;
    if |b| == 0 {
      assert a + b == a;
      assert RunTrace(w0, a) + [] == RunTrace(w0, a);
    } else {
      var n := |b| - 1;
      assert (a + b)[..|a + b| - 1] == a + b[..n];
      RunSplits(w0, a, b[..n]);
      var t := TraceOf(Reach(w0, a + b[..n]), b[n]);
      assert RunTrace(w0, a) + RunTrace(Reach(w0, a), b[..n]) + t ==
        RunTrace(w0, a) + (RunTrace(Reach(w0, a), b[..n]) + t);
    }
  }

  lemma {:induction false} CyclesSplit(w0: World, a: seq<Step>, b: seq<Step>, id: nat)
    ensures CyclesWith(w0, a + b, id) == CyclesWith(w0, a, id) + CyclesWith(Reach(w0, a), b, id)
    decreases |b|
  {
    hide *;
    OneMoreCycle(w0, a + b, id);
    OneMoreCycle(Reach(w0, a), b, id);
    if |b| == 0 {
      assert a + b == a;
    } else {
      var n := |b| - 1;
      assert (a + b)[..|a + b| - 1] == a + b[..n] && (a + b)[|a + b| - 1] == b[n];
      CyclesSplit(w0, a, b[..n], id);
      RunSplits(w0, a, b[..n]);
    }
  }

  lemma OneMoreCycle(w0: World, steps: seq<Step>, id: nat)
    ensures |steps| == 0 ==> CyclesWith(w0, steps, id) == 0
    ensures |steps| > 0 ==>
      var before, step := steps[..|steps| - 1], steps[|steps| - 1];
      CyclesWith(w0, steps, id) ==
        CyclesWith(w0, before, id) + if IsCycle(step) && Present(Reach(w0, before).db.hosts, id) then 1 else 0
  {
    hide Reach, IsCycle, Present;
  }

  // Any stretch b of such a run, after any beginning a, with N cycles kills the
  // host by health check at most (N + 4) / 5 times: a stretch with two such deaths
  // holds at least six cycles, so one is five cycles or more after the other.
  lemma FlapWindow(w0: World, a: seq<Step>, b: seq<Step>, id: nat)
    requires Sound(w0) && w0.streaks == NO_STREAKS
    requires forall i :: 0 <= i < |a| ==> LeavesAlone(a[i], id)
    requires forall i :: 0 <= i < |b| ==> LeavesAlone(b[i], id)
    ensures CheckKills(RunTrace(w0, a + b), id) - CheckKills(RunTrace(w0, a), id) <=
      (CyclesWith(w0, a + b, id) - CyclesWith(w0, a, id) + 4) / 5
    ensures CheckKills(RunTrace(Reach(w0, a), b), id) <= (CyclesWith(Reach(w0, a), b, id) + 4) / 5
  {
    hide Sound, Reach, RunTrace, CyclesWith, LeavesAlone, CheckKills;
    var w := Reach(w0, a);
    FreshCredit(w0, id);
    RunCredit(w0, a, id, 0, 0);
    RunKeepsSound(w0, a);
    CreditAnew(w, id, CyclesWith(w0, a, id), CheckKills(RunTrace(w0, a), id));
    RunCredit(w, b, id, 2, 0);
    RunSplits(w0, a, b);
    CheckKillsConcat(RunTrace(w0, a), RunTrace(w, b), id);
    CyclesSplit(w0, a, b, id);
  }

  // The transition matrix over whole runs

  ghost predicate MatrixHolds(t: seq<Effect>) {
    forall e :: e in t && e.StateChanged? ==> e.from != e.to && IsValidTransition(e.from, e.to)
  }

  lemma RunTraceBegins(w0: World)
    ensures RunTrace(w0, []) == [] && MatrixHolds([]) && NoGuard([])
  {
  }

  // A step has effects only as part of a cycle.
  lemma TraceIsPart(w: World, step: Step)
    ensures IsCycle(step) ==> step.Poll? || step.Crash?
    ensures forall e :: e in TraceOf(w, step) ==> IsCycle(step) && e in CycleTrace(w, step.env)
  {
    hide CycleTrace;
  }

  lemma MatrixHoldsJoins(t: seq<Effect>, u: seq<Effect>, w: World, step: Step)
    requires MatrixHolds(t) && forall e :: e in u ==> IsCycle(step) && e in CycleTrace(w, step.env)
    requires IsCycle(step) ==> MatrixHolds(CycleTrace(w, step.env))
    ensures MatrixHolds(t + u)
    ensures forall e :: e in t + u && e.StateChanged? ==> !(e.from == Dead && e.to == Full)
  {
    hide CycleTrace;
  }

  lemma CycleObeysMatrix(w: World, env: Env)
    requires ValidIds(w.db)
    ensures MatrixHolds(CycleTrace(w, env))
  {
    hide CycleLoop, CheckedDb, CheckEffects, ResultOf, ShouldOpen, TrafficExceeded;
    CheckTraceKind(w.db.hosts, w.streaks, env);
    LoopKillsOnly(w, env);
    ReadyMayDie();
  }

  lemma ReadyMayDie()
    ensures IsValidTransition(Ready, Dead)
  {
  }

  // No run makes a transition outside the matrix; in particular none goes from
  // Dead to Full, though the health check asks for it.
  lemma {:induction false} RunObeysMatrix(w0: World, steps: seq<Step>)
    requires Sound(w0)
    ensures MatrixHolds(RunTrace(w0, steps))
    ensures forall e :: e in RunTrace(w0, steps) && e.StateChanged? ==> !(e.from == Dead && e.to == Full)
  {
    hide *;
    if |steps| == 0 {
      RunTraceBegins(w0);
    } else {
      var before, step := steps[..|steps| - 1], steps[|steps| - 1];
      RunObeysMatrix(w0, before);
      RunKeepsSound(w0, before);
      SoundParts(Reach(w0, before));
      OneMoreStep(w0, steps);
      TraceIsPart(Reach(w0, before), step);
      if IsCycle(step) {
        CycleObeysMatrix(Reach(w0, before), step.env);
      }
      MatrixHoldsJoins(RunTrace(w0, before), TraceOf(Reach(w0, before), step), Reach(w0, before), step);
    }
  }

  // The guard that never fires

  ghost predicate NoGuard(t: seq<Effect>) {
    forall e :: e in t && e.StateChanged? ==> e.cause != HealthGuard
  }

  lemma NoGuardJoins(t: seq<Effect>, u: seq<Effect>)
    requires forall e :: e in t ==> IsEarly(e)
    requires forall e :: e in u && e.StateChanged? ==> e.from == Ready && e.to == Dead && e.cause == ConnectFailed
    ensures NoGuard(t + u)
  {
  }

  lemma NoGuardJoinsStep(t: seq<Effect>, u: seq<Effect>, w: World, step: Step)
    requires NoGuard(t) && forall e :: e in u ==> IsCycle(step) && e in CycleTrace(w, step.env)
    requires IsCycle(step) ==> NoGuard(CycleTrace(w, step.env))
    ensures NoGuard(t + u)
  {
    hide CycleTrace;
  }

  // A cycle never elects a host that it has just found unreachable.
  lemma CycleNeverGuards(w: World, env: Env)
    requires ValidIds(w.db)
    ensures NoGuard(CycleTrace(w, env))
  {
    hide *;
    CycleParts(w, env);
    EarlyIsEarly(w, env);
    LoopKillsOnly(w, env);
    NoGuardJoins(EarlyTrace(w, env), CycleLoop(w, env).trace);
  }

  // Nor does any run.
  lemma {:induction false} RunNeverGuards(w0: World, steps: seq<Step>)
    requires Sound(w0)
    ensures NoGuard(RunTrace(w0, steps))
  {
    hide *;
    if |steps| == 0 {
      RunTraceBegins(w0);
    } else {
      var before, step := steps[..|steps| - 1], steps[|steps| - 1];
      RunNeverGuards(w0, before);
      RunKeepsSound(w0, before);
      SoundParts(Reach(w0, before));
      OneMoreStep(w0, steps);
      TraceIsPart(Reach(w0, before), step);
      if IsCycle(step) {
        CycleNeverGuards(Reach(w0, before), step.env);
      }
      NoGuardJoinsStep(RunTrace(w0, before), TraceOf(Reach(w0, before), step), Reach(w0, before), step);
    }
  }
}
