// The whole system: polling cycles interleaved, in any order, with the host,
// pool and configuration handlers, operator overrides and restarts.
module Runs {
  import opened Text
  import opened Models
  import opened Cycles
  import opened CycleTheorems
  import opened TraceSafety
  import opened DdnsRules
  import opened Handlers

  datatype Step =
    | Poll(env: Env)
    | AddHost(req: HostRequest)
    | EditHost(id: nat, req: HostRequest)
    | RemoveHost(id: nat)
    | AddPool(name: string)
    | RemovePool(name: string)
    | SaveRules(raw: RawRules)
    | Override(id: nat, state: HostState)
    | Restart
    | Crash(env: Env, k: nat)

  const NO_STREAKS := Streaks(map[], map[])

  function RulesSaved(db: Db, raw: RawRules): Db {
    var r := Normalize(raw, db.rules);
    if r.Ok? then db.(rules := r.value) else db
  }

  // The effects of a cycle up to a crash after k of them.
  function CutTrace(w: World, env: Env, k: nat): seq<Effect> {
    var t := CycleTrace(w, env);
    if k <= |t| then t[..k] else t
  }

  // Handlers are atomic and touch neither the streaks nor the breaker. A restart
  // begins with fresh ones; so does the one after a crash inside a cycle.
  function Next(w: World, step: Step): World {
    match step
    case Poll(env) => Cycle(w, env)
    case AddHost(req) => w.(db := CreateHost(w.db, req).db)
    case EditHost(id, req) => w.(db := UpdateHost(w.db, id, req).db)
    case RemoveHost(id) => w.(db := DeleteHost(w.db, id).db)
    case AddPool(name) => w.(db := CreatePool(w.db, name).db)
    case RemovePool(name) => w.(db := DeletePool(w.db, name).db)
    case SaveRules(raw) => w.(db := RulesSaved(w.db, raw))
    case Override(id, state) => w.(db := ForceState(w.db, id, state))
    case Restart => World(Startup(w.db), NO_STREAKS, false)
    case Crash(env, k) => World(Startup(Replay(CutTrace(w, env, k), w.db)), NO_STREAKS, false)
  }

  function TraceOf(w: World, step: Step): seq<Effect> {
    match step
    case Poll(env) => CycleTrace(w, env)
    case Crash(env, k) => CutTrace(w, env, k)
    case _ => []
  }

  ghost function Reach(w0: World, steps: seq<Step>): World {
    if |steps| == 0 then w0 else Next(Reach(w0, steps[..|steps| - 1]), steps[|steps| - 1])
  }

  ghost function RunTrace(w0: World, steps: seq<Step>): seq<Effect> {
    if |steps| == 0 then []
    else
      var before := steps[..|steps| - 1];
      RunTrace(w0, before) + TraceOf(Reach(w0, before), steps[|steps| - 1])
  }

  // Invariants of every run

  ghost predicate OldKeys(s: Streaks, nextId: nat) {
    && (forall id :: id in s.fail ==> id < nextId)
    && (forall id :: id in s.recover ==> id < nextId)
  }

  // Ids are distinct and streaks belong to ids already given out; only the
  // stored leader can be flagged; the stored rules are normalised.
  ghost predicate Sound(w: World) {
    && ValidIds(w.db)
    && OldKeys(w.streaks, w.db.nextId)
    && AtMostOneFlag(w.db.hosts)
    && WellFormed(w.db.rules)
  }

  lemma {:induction false} CountKeys(s: Streaks, hosts: seq<Host>, env: Env, nextId: nat)
    requires OldKeys(s, nextId) && forall h :: h in hosts ==> h.id < nextId
    ensures OldKeys(CountHosts(s, hosts, env), nextId)
  {
    hide FailAfter, RecoverAfter;
    if |hosts| > 0 {
      assert hosts[|hosts| - 1] in hosts && forall h :: h in hosts[..|hosts| - 1] ==> h in hosts;
      CountKeys(s, hosts[..|hosts| - 1], env, nextId);
    }
  }

  lemma CycleKeepsSound(w: World, env: Env)
    requires Sound(w)
    ensures Sound(Cycle(w, env))
  {
    hide *;
    SoundParts(w);
    FlagsAfterCycle(w, env);
    CycleDb(w, env);
    ReplayTables(CycleTrace(w, env), w.db);
    CountKeys(w.streaks, w.db.hosts, env, w.db.nextId);
    CycleStreaks(w, env);
    SoundIf(Cycle(w, env));
  }

  lemma SoundParts(w: World)
    requires Sound(w)
    ensures ValidIds(w.db) && OldKeys(w.streaks, w.db.nextId)
    ensures AtMostOneFlag(w.db.hosts) && WellFormed(w.db.rules)
    ensures DistinctIds(w.db.hosts) && forall h :: h in w.db.hosts ==> h.id < w.db.nextId
  {
    hide OldKeys, AtMostOneFlag, WellFormed;
  }

  lemma SoundIf(w: World)
    requires ValidIds(w.db) && OldKeys(w.streaks, w.db.nextId)
    requires AtMostOneFlag(w.db.hosts) && WellFormed(w.db.rules)
    ensures Sound(w)
  {
  }

  lemma CycleStreaks(w: World, env: Env)
    ensures Cycle(w, env).streaks == CountHosts(w.streaks, w.db.hosts, env)
  {
    hide CountHosts, Replay, CycleTrace;
  }

  // A trace keeps ids, pools, priorities and everything outside the host rows.
  lemma ReplayTables(t: seq<Effect>, db: Db)
    requires ValidIds(db)
    ensures
      var after := Replay(t, db);
      && ValidIds(after)
      && after == db.(hosts := after.hosts, leader := after.leader)
      && |after.hosts| == |db.hosts|
      && forall i :: 0 <= i < |db.hosts| ==>
           && after.hosts[i].id == db.hosts[i].id
           && after.hosts[i].pool == db.hosts[i].pool
           && after.hosts[i].priority == db.hosts[i].priority
  {
  }

  // Every step keeps the world sound.
  lemma StepKeepsSound(w: World, step: Step)
    requires Sound(w)
    ensures Sound(Next(w, step))
  {
    hide *;
    StepIs(w, step);
    match step
    case Poll(env) => CycleKeepsSound(w, env);
    case AddHost(req) => AddKeepsSound(w, req);
    case EditHost(id, req) => EditKeepsSound(w, id, req);
    case RemoveHost(id) => RemoveKeepsSound(w, id);
    case AddPool(name) => PoolsKeepSound(w, name);
    case RemovePool(name) => PoolsKeepSound(w, name);
    case SaveRules(raw) => SaveKeepsSound(w, raw);
    case Override(id, state) => OverrideKeepsSound(w, id, state);
    case Restart => SoundParts(w); RestartIsSound(w.db, w.db);
    case Crash(env, k) => CrashKeepsSound(w, env, k);
  }

  lemma StepIs(w: World, step: Step)
    ensures step.Crash? || Next(w, step) ==
      match step
      case Poll(env) => Cycle(w, env)
      case AddHost(req) => w.(db := CreateHost(w.db, req).db)
      case EditHost(id, req) => w.(db := UpdateHost(w.db, id, req).db)
      case RemoveHost(id) => w.(db := DeleteHost(w.db, id).db)
      case AddPool(name) => w.(db := CreatePool(w.db, name).db)
      case RemovePool(name) => w.(db := DeletePool(w.db, name).db)
      case SaveRules(raw) => w.(db := RulesSaved(w.db, raw))
      case Override(id, state) => w.(db := ForceState(w.db, id, state))
      case _ => World(Startup(w.db), NO_STREAKS, false)
  {
    hide Cycle, CreateHost, UpdateHost, DeleteHost, CreatePool, DeletePool, RulesSaved, ForceState, Startup;
  }

  lemma PoolsKeepSound(w: World, name: string)
    requires Sound(w)
    ensures Sound(w.(db := CreatePool(w.db, name).db)) && Sound(w.(db := DeletePool(w.db, name).db))
  {
    hide OldKeys, AtMostOneFlag, WellFormed, TrimSpace, ValidPoolName;
  }

  lemma CrashKeepsSound(w: World, env: Env, k: nat)
    requires Sound(w)
    ensures Sound(Next(w, Crash(env, k)))
  {
    hide *;
    SoundParts(w);
    var n := CutLength(w, env, k);
    FlagsAfterCut(w, env, n);
    ReplayTables(CutTrace(w, env, k), w.db);
    RestartIsSound(Replay(CutTrace(w, env, k), w.db), w.db);
    CrashIs(w, env, k);
  }

  // A crash after more effects than a cycle has is one at its end.
  lemma CutLength(w: World, env: Env, k: nat) returns (n: nat)
    ensures n <= |CycleTrace(w, env)| && CutTrace(w, env, k) == CycleTrace(w, env)[..n]
    ensures k <= |CycleTrace(w, env)| ==> n == k
  {
    hide CycleTrace;
    n := |CutTrace(w, env, k)|;
  }

  lemma CrashIs(w: World, env: Env, k: nat)
    ensures Next(w, Crash(env, k)) == World(Startup(Replay(CutTrace(w, env, k), w.db)), NO_STREAKS, false)
  {
    hide CutTrace, Replay, Startup;
  }

  lemma RestartIsSound(db: Db, was: Db)
    requires ValidIds(db) && AtMostOneFlag(db.hosts) && db.rules == was.rules && WellFormed(was.rules)
    ensures Sound(World(Startup(db), NO_STREAKS, false))
  {
    hide AtMostOneFlag, WellFormed, HostPools;
  }

  lemma AddKeepsSound(w: World, req: HostRequest)
    requires Sound(w)
    ensures Sound(w.(db := CreateHost(w.db, req).db))
  {
    hide WellFormed, TrimSpace, NextPriority, PoolExists, SlotTaken;
    var reply := CreateHost(w.db, req);
    if reply.status == Success {
      var h := reply.db.hosts[|w.db.hosts|];
      assert reply.db.hosts == w.db.hosts + [h];
      assert forall g :: g in reply.db.hosts <==> g in w.db.hosts || g == h;
      assert DistinctIds(reply.db.hosts) by {
        assert forall i :: 0 <= i < |w.db.hosts| ==> w.db.hosts[i] in w.db.hosts;
      }
    }
  }

  lemma EditKeepsSound(w: World, id: nat, req: HostRequest)
    requires Sound(w)
    ensures Sound(w.(db := UpdateHost(w.db, id, req).db))
  {
    hide WellFormed, TrimSpace, SlotTaken, PoolExists, Edited, OldKeys;
    var reply := UpdateHost(w.db, id, req);
    if reply.status == Success {
      var row := FindHost(w.db.hosts, id).value;
      var k :| 0 <= k < |w.db.hosts| && w.db.hosts[k] == row;
      EditedFlag(row, req);
      OnlyRowChanges(w.db.hosts, Edited(row, req), k);
      forall g | g in reply.db.hosts ensures 1 <= g.id < w.db.nextId {
        assert g == Edited(row, req) || g in w.db.hosts;
      }
    }
  }

  lemma EditedFlag(h: Host, req: HostRequest)
    ensures Edited(h, req).id == h.id && Edited(h, req).isLeader == h.isLeader
  {
  }

  lemma RemoveKeepsSound(w: World, id: nat)
    requires Sound(w)
    ensures Sound(w.(db := DeleteHost(w.db, id).db))
  {
    hide WellFormed, AtMostOneFlag;
    WithoutFacts(w.db.hosts, id);
    WithoutFlags(w.db.hosts, id);
  }

  lemma {:induction false} WithoutFlags(hosts: seq<Host>, id: nat)
    requires AtMostOneFlag(hosts)
    ensures AtMostOneFlag(Without(hosts, id))
  {
    if |hosts| > 0 {
      var n := |hosts| - 1;
      WithoutFlags(hosts[..n], id);
      WithoutRows(hosts[..n], id);
      var rest := Without(hosts[..n], id);
      assert forall i :: 0 <= i < |rest| ==> rest[i] in hosts[..n];
    }
  }

  lemma SaveKeepsSound(w: World, raw: RawRules)
    requires Sound(w)
    ensures Sound(w.(db := RulesSaved(w.db, raw)))
  {
    hide WellFormed, Normalize;
    NormalizeWellFormed(raw, w.db.rules);
  }

  lemma OverrideKeepsSound(w: World, id: nat, state: HostState)
    requires Sound(w)
    ensures Sound(w.(db := ForceState(w.db, id, state)))
  {
    hide WellFormed;
    var hosts := ForceState(w.db, id, state).hosts;
    forall h | h in hosts ensures 1 <= h.id < w.db.nextId {
      var i :| 0 <= i < |hosts| && hosts[i] == h;
      assert w.db.hosts[i] in w.db.hosts;
    }
  }

  // In every reachable world at most one host carries the leader flag, ids are
  // sound and the stored rules are normalised.
  lemma {:induction false} RunKeepsSound(w0: World, steps: seq<Step>)
    requires Sound(w0)
    ensures Sound(Reach(w0, steps))
  {
    hide Sound, Next;
    if |steps| > 0 {
      RunKeepsSound(w0, steps[..|steps| - 1]);
      StepKeepsSound(Reach(w0, steps[..|steps| - 1]), steps[|steps| - 1]);
    }
  }

  // And between any two effects of any cycle of any run, crashes inside cycles
  // included, at most one host does.
  lemma FlagsInEveryRun(w0: World, steps: seq<Step>, env: Env, k: nat)
    requires Sound(w0)
    ensures k <= |CycleTrace(Reach(w0, steps), env)| ==>
      AtMostOneFlag(Replay(CycleTrace(Reach(w0, steps), env)[..k], Reach(w0, steps).db).hosts)
  {
    hide *;
    RunKeepsSound(w0, steps);
    SoundParts(Reach(w0, steps));
    FlagsAtEveryStep(Reach(w0, steps), env, k);
  }

  // The crash fell between flagging a new leader and storing it.
  ghost predicate IsTorn(w: World, env: Env, k: nat) {
    var t := CutTrace(w, env, k);
    |t| > 0 && t[|t| - 1].FlagSet? && t[|t| - 1].host != w.db.leader
  }

  // A crash leaves the flag on another host than the stored leader exactly then.
  lemma CrashAgrees(w: World, env: Env, k: nat)
    requires ValidIds(w.db) && Agrees(w.db)
    ensures Agrees(Next(w, Crash(env, k)).db) <==> !IsTorn(w, env, k)
  {
    hide *;
    var n := CutLength(w, env, k);
    FlagsAfterCut(w, env, n);
    CrashIs(w, env, k);
    StartupAgrees(Replay(CutTrace(w, env, k), w.db));
    TornIs(w, env, k);
  }

  lemma StartupAgrees(db: Db)
    ensures Agrees(World(Startup(db), NO_STREAKS, false).db) <==> Agrees(db)
  {
    hide HostPools;
  }

  lemma TornIs(w: World, env: Env, k: nat)
    requires Agrees(w.db) && ValidIds(w.db)
    ensures AgreesAfter(CutTrace(w, env, k), w.db) <==> !IsTorn(w, env, k)
  {
    var t := CutTrace(w, env, k);
    hide CutTrace;
    if |t| > 0 && t[|t| - 1].FlagSet? {
      NoneStoredBefore(w, env, k);
    }
  }

  // A host is stored only after the last flag is set.
  lemma NoneStoredBefore(w: World, env: Env, k: nat)
    requires ValidIds(w.db)
    ensures
      var t := CutTrace(w, env, k);
      |t| > 0 && t[|t| - 1].FlagSet? ==> forall e :: e in t ==> !e.LeaderStored?
  {
    hide *;
    var n := CutLength(w, env, k);
    var pre, l := CycleShape(w, env);
    var h, dns, t, m := SplitAtCommit(CycleTrace(w, env), CheckedDb(w, env), env, pre, l, n);
    EndsInFlag(t, h, dns, m);
  }

  lemma EndsInFlag(t: seq<Effect>, h: Host, dns: DnsRun, m: nat)
    requires m <= |CommitEffects(h, dns)|
    requires forall e :: e in t ==> !e.FlagsCleared? && !e.FlagSet? && !e.LeaderStored?
    ensures
      var all := t + CommitEffects(h, dns)[..m];
      |all| > 0 && all[|all| - 1].FlagSet? ==> forall e :: e in all ==> !e.LeaderStored?
  {
    var all := t + CommitEffects(h, dns)[..m];
    assert forall e :: e in all ==> e in t || e in CommitEffects(h, dns)[..m];
    if m == 0 && |t| > 0 {
      assert all[|all| - 1] == t[|t| - 1] && t[|t| - 1] in t;
    }
  }

  // No other step makes them disagree.
  lemma StepAgrees(w: World, step: Step)
    requires Sound(w) && Agrees(w.db)
    requires step.Crash? ==> !IsTorn(w, step.env, step.k)
    ensures Agrees(Next(w, step).db)
  {
    SoundParts(w);
    hide *;
    match step
    case Poll(env) => FlagsAfterCycle(w, env); PollIs(w, env);
    case Crash(env, k) => CrashAgrees(w, env, k);
    case _ => HandlerAgrees(w, step);
  }

  lemma PollIs(w: World, env: Env)
    ensures Next(w, Poll(env)) == Cycle(w, env) && TraceOf(w, Poll(env)) == CycleTrace(w, env)
  {
    hide Cycle, CycleTrace;
  }

  lemma HandlerAgrees(w: World, step: Step)
    requires Agrees(w.db) && !step.Poll? && !step.Crash?
    ensures Agrees(Next(w, step).db)
  {
    hide TrimSpace, NextPriority, PoolExists, SlotTaken, HostPools, Normalize, ValidPoolName;
    match step
    case RemoveHost(id) => WithoutRows(w.db.hosts, id);
    case _ =>
  }

  // Over any run whose crashes are not torn, the flagged host is the stored leader.
  lemma {:induction false} RunAgrees(w0: World, steps: seq<Step>)
    requires Sound(w0) && Agrees(w0.db)
    ensures (forall i :: 0 <= i < |steps| && steps[i].Crash? ==>
              !IsTorn(Reach(w0, steps[..i]), steps[i].env, steps[i].k)) ==> Agrees(Reach(w0, steps).db)
  {
    hide Sound, Agrees, IsTorn, Next;
    if |steps| > 0 {
      var n := |steps| - 1;
      assert forall i :: 0 <= i < n ==> steps[..n][i] == steps[i] && steps[..n][..i] == steps[..i];
      RunAgrees(w0, steps[..n]);
      RunKeepsSound(w0, steps[..n]);
      if (forall i :: 0 <= i < |steps| && steps[i].Crash? ==>
            !IsTorn(Reach(w0, steps[..i]), steps[i].env, steps[i].k)) {
        StepAgrees(Reach(w0, steps[..n]), steps[n]);
      }
    }
  }

  // Pool names submitted without surrounding space.
  predicate TrimmedStep(step: Step) {
    match step
    case AddHost(req) => Trimmed(req.pool)
    case EditHost(_, req) => Trimmed(req.pool)
    case _ => true
  }

  lemma CycleKeepsIntegrity(w: World, env: Env)
    requires ValidIds(w.db) && Integrity(w.db)
    ensures Integrity(Cycle(w, env).db)
  {
    hide *;
    CycleDb(w, env);
    ReplayTables(CycleTrace(w, env), w.db);
    SamePlaces(w.db, Cycle(w, env).db);
  }

  lemma SamePlaces(db: Db, after: Db)
    requires Integrity(db) && after.pools == db.pools && |after.hosts| == |db.hosts|
    requires forall i :: 0 <= i < |db.hosts| ==>
      after.hosts[i].pool == db.hosts[i].pool && after.hosts[i].priority == db.hosts[i].priority
    ensures Integrity(after)
  {
    forall h | h in after.hosts ensures h.pool in db.pools {
      var i :| 0 <= i < |after.hosts| && after.hosts[i] == h;
      assert db.hosts[i] in db.hosts;
    }
  }

  // Under any sequence of steps with trimmed pool names every host's pool stays
  // registered, the default pool too, and no two hosts share a slot.
  lemma {:induction false} RunKeepsIntegrity(w0: World, steps: seq<Step>)
    requires Sound(w0) && Integrity(w0.db)
    requires forall i :: 0 <= i < |steps| ==> TrimmedStep(steps[i])
    ensures Integrity(Reach(w0, steps).db)
  {
    hide Sound, Integrity, Next, TrimmedStep;
    if |steps| > 0 {
      var before := steps[..|steps| - 1];
      RunKeepsIntegrity(w0, before);
      RunKeepsSound(w0, before);
      StepKeepsIntegrity(Reach(w0, before), steps[|steps| - 1]);
    }
  }

  lemma StepKeepsIntegrity(w: World, step: Step)
    requires Sound(w) && Integrity(w.db) && TrimmedStep(step)
    ensures Integrity(Next(w, step).db)
  {
    hide *;
    SoundParts(w);
    PlacesKept(w, step);
    match step {
      case Poll(env) => CycleKeepsIntegrity(w, env);
      case AddHost(req) => CreateHostKeeps(w.db, req);
      case EditHost(id, req) => UpdateHostKeeps(w.db, id, req);
      case RemoveHost(id) => PoolHandlersKeep(w.db, id, "", Ready);
      case AddPool(name) => PoolHandlersKeep(w.db, 0, name, Ready);
      case RemovePool(name) => PoolHandlersKeep(w.db, 0, name, Ready);
      case SaveRules(raw) => SamePlaces(w.db, RulesSaved(w.db, raw));
      case Override(id, state) => PoolHandlersKeep(w.db, id, "", state);
      case Restart => StartupKeeps(w.db);
      case Crash(env, k) =>
        ReplayTables(CutTrace(w, env, k), w.db);
        SamePlaces(w.db, Replay(CutTrace(w, env, k), w.db));
        StartupKeeps(Replay(CutTrace(w, env, k), w.db));
    }
  }

  lemma PlacesKept(w: World, step: Step)
    requires TrimmedStep(step)
    ensures Next(w, step).db ==
      match step
      case Poll(env) => Cycle(w, env).db
      case AddHost(req) => CreateHost(w.db, req).db
      case EditHost(id, req) => UpdateHost(w.db, id, req).db
      case RemoveHost(id) => DeleteHost(w.db, id).db
      case AddPool(name) => CreatePool(w.db, name).db
      case RemovePool(name) => DeletePool(w.db, name).db
      case SaveRules(raw) => RulesSaved(w.db, raw)
      case Override(id, state) => ForceState(w.db, id, state)
      case Restart => Startup(w.db)
      case Crash(env, k) => Startup(Replay(CutTrace(w, env, k), w.db))
    ensures step.AddHost? || step.EditHost? ==> Trimmed(step.req.pool)
    ensures step.SaveRules? ==> RulesSaved(w.db, step.raw) == w.db.(rules := RulesSaved(w.db, step.raw).rules)
  {
    hide Cycle, CreateHost, UpdateHost, DeleteHost, CreatePool, DeletePool, ForceState, Startup, Normalize, Trimmed;
    hide Replay, CutTrace;
  }
}
