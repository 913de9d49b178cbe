// engine/poller.go: the polling cycle as the program runs it, step by step, on
// the database and on the poller's own maps. Every method is proved to do what
// the functions of module Cycles say.
module Pollers {
  import opened Text
  import opened Models
  import opened Storage
  import opened StateMachines
  import opened Elections
  import opened Circuits
  import opened Cycles

  function TrueKeys(m: map<nat, bool>): set<nat> {
    set k | k in m && m[k]
  }

  // Counting other hosts leaves a host's streaks alone.
  lemma {:induction false} CountHostsFrame(s: Streaks, hosts: seq<Host>, env: Env, id: nat)
    requires forall h :: h in hosts ==> h.id != id
    ensures Streak(CountHosts(s, hosts, env).fail, id) == Streak(s.fail, id)
    ensures Streak(CountHosts(s, hosts, env).recover, id) == Streak(s.recover, id)
  {
    if |hosts| > 0 {
      CountHostsFrame(s, hosts[..|hosts| - 1], env, id);
    }
  }

  // A row is not touched by the checks of other hosts.
  lemma {:induction false} CheckTraceFrame(hosts: seq<Host>, s: Streaks, env: Env, h: Host)
    requires forall g :: g in hosts ==> g.id != h.id
    ensures RowAfterAll(CheckTrace(hosts, s, env), h) == h
  {
    if |hosts| > 0 {
      var n := |hosts| - 1;
      CheckTraceFrame(hosts[..n], s, env, h);
      var t := CheckEffects(hosts[n], ResultOf(hosts[n], s, env));
      RowAfterConcat(CheckTrace(hosts[..n], s, env), t, h);
      CheckEffectsFrame(hosts[n], ResultOf(hosts[n], s, env), h);
    }
  }

  lemma CheckEffectsFrame(g: Host, r: CheckResult, h: Host)
    requires g.id != h.id
    ensures RowAfterAll(CheckEffects(g, r), h) == h
  {
    var t := CheckEffects(g, r);
    CheckOutcome(g, r);
    if |t| == 1 {
      assert t == [t[0]];
      RowAfterOne(t[0], h);
    }
  }

  // The two tables hold the same hosts in the same states.
  ghost predicate SameStates(before: seq<Host>, after: seq<Host>) {
    && |before| == |after|
    && forall i :: 0 <= i < |before| ==> after[i].id == before[i].id && after[i].state == before[i].state
  }

  lemma FindInSameStates(before: seq<Host>, after: seq<Host>, h: Host)
    requires DistinctIds(before) && SameStates(before, after) && h in before
    ensures FindHost(after, h.id).Some? && FindHost(after, h.id).value.state == h.state
  {
    var i :| 0 <= i < |before| && before[i] == h;
    FindHostIsRow(after, i);
  }

  function LoopAfter(done: seq<Effect>, rest: LoopRun): LoopRun {
    LoopRun(done + rest.trace, rest.open)
  }

  lemma LoopStep(done: seq<Effect>, db: Db, open: bool, currentLeaderId: nat, reach: set<nat>, env: Env, attempt: nat)
    requires attempt < MAX_ELECT_RETRIES
    ensures
      var a := AttemptOf(db, open, currentLeaderId, reach, env, attempt);
      LoopAfter(done, ElectLoop(db, open, currentLeaderId, reach, env, attempt)) ==
        if a.over then LoopRun(done + a.trace, a.open)
        else LoopAfter(done + a.trace, ElectLoop(Replay(a.trace, db), a.open, 0, reach, env, attempt + 1))
  {
    hide AttemptOf, Replay;
    var a := AttemptOf(db, open, currentLeaderId, reach, env, attempt);
    if !a.over {
      Appended(done, a.trace, ElectLoop(Replay(a.trace, db), a.open, 0, reach, env, attempt + 1).trace);
    }
  }

  lemma LoopBegin(run: LoopRun)
    ensures LoopAfter([], run) == run
  {
    assert [] + run.trace == run.trace;
  }

  lemma LoopEnd(done: seq<Effect>, db: Db, open: bool, currentLeaderId: nat, reach: set<nat>, env: Env)
    ensures LoopAfter(done, ElectLoop(db, open, currentLeaderId, reach, env, MAX_ELECT_RETRIES)) == LoopRun(done, open)
  {
    assert done + [] == done;
  }

  // Runs commands on hosts; what the remote side returns is given.
  class CommandExecutor {
    constructor () {}

    method Execute(db: Store, host: Host, remoteExit: int) returns (exitCode: int)
      modifies db
      ensures exitCode == if TrimSpace(host.preCommand) == "" then 0 else remoteExit
      ensures Logged(db, [Connected(host.id, exitCode)])
    {
      exitCode := if TrimSpace(host.preCommand) == "" then 0 else remoteExit;
      db.Emit(Connected(host.id, exitCode));
    }
  }

  class Poller {
    const sm: StateMachine
    const exec: CommandExecutor
    const cb: CircuitBreaker
    var hostFailStreak: map<nat, nat>
    var hostRecoverStreak: map<nat, nat>

    constructor (sm: StateMachine, exec: CommandExecutor, cb: CircuitBreaker)
      ensures this.sm == sm && this.exec == exec && this.cb == cb
      ensures StreakMaps() == Streaks(map[], map[])
    {
      this.sm, this.exec, this.cb := sm, exec, cb;
      hostFailStreak, hostRecoverStreak := map[], map[];
    }

    function StreakMaps(): Streaks
      reads this
    {
      Streaks(hostFailStreak, hostRecoverStreak)
    }

    ghost function WorldOf(db: Store): World
      reads this, db, cb
    {
      World(db.Contents(), StreakMaps(), cb.isOpen)
    }

    method RunOnce(db: Store, env: Env)
      requires ValidIds(db.Contents())
      modifies this, cb, db
      ensures WorldOf(db) == Cycle(old(WorldOf(db)), env)
      ensures db.effects == old(db.effects) + CycleTrace(old(WorldOf(db)), env)
    {
      ghost var w, effects := WorldOf(db), db.effects;
      CycleReplay(w, env);
      ghost var t := CheckTrace(w.db.hosts, w.streaks, env);
      var reachability := CheckHosts(db, env);
      var open := CheckBreaker(db);
      Appended(effects, t, BreakerTrace(w, env));
      Appended(effects, t + BreakerTrace(w, env), CycleLoop(w, env).trace);
      if open {
        ReplayNothing(db.Contents());
        assert db.effects + [] == db.effects;
        return;
      }
      ElectAndSwitch(db, reachability, env);
    }

    method CheckBreaker(db: Store) returns (open: bool)
      modifies cb, db
      ensures open == cb.isOpen == ShouldOpen(old(db.hosts))
      ensures Logged(db, BreakerEffects(old(cb.isOpen), cb.isOpen))
    {
      var changed: bool;
      ghost var effects := db.effects;
      open, changed := cb.Check(db, db.hosts);
      assert db.effects + [] == db.effects;
      if changed {
        var notice := if open then CircuitOpenNotice else CircuitCloseNotice;
        db.Emit(Notified(notice));
        Appended(effects, CircuitEffects(old(cb.isOpen), open), [Notified(notice)]);
      }
    }

    // Checks every host and returns whom the cycle treats as reachable.
    method CheckHosts(db: Store, env: Env) returns (reachability: map<nat, bool>)
      requires ValidIds(db.Contents())
      modifies this, db
      ensures Wrote(db, CheckTrace(old(db.hosts), old(StreakMaps()), env))
      ensures StreakMaps() == CountHosts(old(StreakMaps()), old(db.hosts), env)
      ensures TrueKeys(reachability) == ReachableIds(old(db.hosts), old(StreakMaps()), env)
    {
      var hosts := db.hosts;
      ghost var s := StreakMaps();
      ResultsOfAt(hosts, s, env);
      var results := TakeSnapshots(db, env);
      reachability := Reachability(hosts, results);
      ReachableAgrees(hosts, s, env, results, reachability);
    }

    // Takes the snapshot of every host, counts the streaks and applies the checks.
    method TakeSnapshots(db: Store, env: Env) returns (results: seq<CheckResult>)
      requires ValidIds(db.Contents())
      modifies this, db
      ensures Wrote(db, CheckTrace(old(db.hosts), old(StreakMaps()), env))
      ensures StreakMaps() == CountHosts(old(StreakMaps()), old(db.hosts), env)
      ensures results == ResultsOf(old(db.hosts), old(StreakMaps()), env)
    {
      var hosts := db.hosts;
      ghost var s, start, effects := StreakMaps(), db.Contents(), db.effects;
      results := [];
      ReplayNothing(start);
      for i := 0 to |hosts|
        invariant Wrote(db, CheckTrace(hosts[..i], s, env))
        invariant StreakMaps() == CountHosts(s, hosts[..i], env)
        invariant results == ResultsOf(hosts[..i], s, env)
      {
        CheckStep(hosts, i, s, env, start, effects);
        var r := CheckHost(db, hosts[i], env);
        results := results + [r];
      }
      assert hosts[..|hosts|] == hosts;
    }

    method Reachability(hosts: seq<Host>, results: seq<CheckResult>) returns (reachability: map<nat, bool>)
      requires |results| == |hosts| && DistinctIds(hosts)
      ensures forall k :: 0 <= k < |hosts| ==>
        hosts[k].id in reachability && reachability[hosts[k].id] == (results[k].reachable && results[k].sshReachable)
      ensures forall id :: id in reachability ==> exists k :: 0 <= k < |hosts| && hosts[k].id == id
    {
      reachability := map[];
      for i := 0 to |hosts|
        invariant forall id :: id in reachability ==> exists k :: 0 <= k < i && hosts[k].id == id
        invariant forall k :: 0 <= k < i ==>
          hosts[k].id in reachability && reachability[hosts[k].id] == (results[k].reachable && results[k].sshReachable)
      {
        reachability := reachability[hosts[i].id := results[i].reachable && results[i].sshReachable];
      }
    }

    method CheckHost(db: Store, h: Host, env: Env) returns (r: CheckResult)
      requires FindHost(db.hosts, h.id) == Some(h)
      modifies this, db
      ensures r == ResultOf(h, old(StreakMaps()), env)
      ensures hostFailStreak == old(hostFailStreak)[h.id := FailAfter(old(StreakMaps()), h.id, env)]
      ensures hostRecoverStreak == old(hostRecoverStreak)[h.id := RecoverAfter(old(StreakMaps()), h.id, env)]
      ensures Wrote(db, CheckEffects(h, r))
    {
      r := CountHost(h, env);
      var _ := sm.ApplyCheckResult(db, h, r);
    }

    // Counts one snapshot of one host and applies the hysteresis to it.
    method CountHost(h: Host, env: Env) returns (r: CheckResult)
      modifies this
      ensures r == ResultOf(h, old(StreakMaps()), env)
      ensures hostFailStreak == old(hostFailStreak)[h.id := FailAfter(old(StreakMaps()), h.id, env)]
      ensures hostRecoverStreak == old(hostRecoverStreak)[h.id := RecoverAfter(old(StreakMaps()), h.id, env)]
      ensures (exists x, y :: env.heartbeat(h.id) == Fresh(true, true, x, y)) ==>
        && Streak(hostFailStreak, h.id) == 0
        && Streak(hostRecoverStreak, h.id) == Streak(old(hostRecoverStreak), h.id) + 1
      ensures (forall x, y :: env.heartbeat(h.id) != Fresh(true, true, x, y)) ==>
        && Streak(hostRecoverStreak, h.id) == 0
        && Streak(hostFailStreak, h.id) == Streak(old(hostFailStreak), h.id) + 1
    {
      var hb := env.heartbeat(h.id);
      var baseReachable := hb.Fresh? && hb.networkOk && hb.sshOk;
      assert baseReachable ==> hb == Fresh(true, true, hb.trafficIn, hb.trafficOut);
      if baseReachable {
        hostRecoverStreak := hostRecoverStreak[h.id := Streak(hostRecoverStreak, h.id) + 1];
        hostFailStreak := hostFailStreak[h.id := 0];
      } else {
        hostFailStreak := hostFailStreak[h.id := Streak(hostFailStreak, h.id) + 1];
        hostRecoverStreak := hostRecoverStreak[h.id := 0];
      }
      var effectiveReachable := baseReachable;
      match h.state {
        case Dead =>
          if baseReachable && hostRecoverStreak[h.id] < HOST_RECOVER_THRESHOLD {
            effectiveReachable := false;
          }
        case _ =>
          if !baseReachable && hostFailStreak[h.id] < HOST_FAIL_THRESHOLD {
            effectiveReachable := true;
          }
      }
      r := CheckResult(effectiveReachable, effectiveReachable,
                       if hb.Missing? then 0 else hb.trafficIn,
                       if hb.Missing? then 0 else hb.trafficOut);
    }

    // The retry loop: elect, switch over, and elect again after a failure.
    method ElectAndSwitch(db: Store, reachability: map<nat, bool>, env: Env)
      requires ValidIds(db.Contents())
      modifies cb, db
      ensures
        var run := ElectLoop(old(db.Contents()), old(cb.isOpen), old(db.leader), TrueKeys(reachability), env, 0);
        Wrote(db, run.trace) && cb.isOpen == run.open
    {
      ghost var start, total := db.Contents(),
        ElectLoop(db.Contents(), cb.isOpen, db.leader, TrueKeys(reachability), env, 0);
      ghost var done: seq<Effect> := [];
      var currentLeaderId := db.leader;
      hide AttemptOf, ElectLoop, Replay, ValidIds, TrueKeys, LoopAfter;
      ReplayNothing(start);
      LoopBegin(total);
      for attempt := 0 to MAX_ELECT_RETRIES
        invariant ValidIds(db.Contents())
        invariant Wrote(db, done)
        invariant total == LoopAfter(done,
          ElectLoop(db.Contents(), cb.isOpen, currentLeaderId, TrueKeys(reachability), env, attempt))
      {
        ghost var a := AttemptOf(db.Contents(), cb.isOpen, currentLeaderId, TrueKeys(reachability), env, attempt);
        LoopStep(done, db.Contents(), cb.isOpen, currentLeaderId, TrueKeys(reachability), env, attempt);
        Appended(old(db.effects), done, a.trace);
        ReplayConcat(done, a.trace, start);
        var over := TryOnce(db, currentLeaderId, reachability, env, attempt);
        done := done + a.trace;
        if over {
          return;
        }
        currentLeaderId := 0;
      }
      LoopEnd(done, db.Contents(), cb.isOpen, currentLeaderId, TrueKeys(reachability), env);
    }

    // One election, and the switch to its winner if that is not the current leader.
    method TryOnce(db: Store, currentLeaderId: nat, reachability: map<nat, bool>, env: Env, attempt: nat)
      returns (over: bool)
      requires ValidIds(db.Contents())
      modifies cb, db
      ensures
        var a := AttemptOf(old(db.Contents()), old(cb.isOpen), currentLeaderId, TrueKeys(reachability), env, attempt);
        Wrote(db, a.trace) && cb.isOpen == a.open && over == a.over
    {
      ghost var start, effects := db.Contents(), db.effects;
      var retryHosts := db.hosts;
      var e := Elect(db, retryHosts, currentLeaderId, env.tie(attempt));
      if e.leader.None? {
        var open, _ := cb.Check(db, retryHosts);
        db.Emit(Notified(CircuitOpenNotice));
        ghost var t := CircuitEffects(old(cb.isOpen), open);
        SilentReplay(t + [Notified(CircuitOpenNotice)], start);
        Appended(effects, t, [Notified(CircuitOpenNotice)]);
        assert effects + [] == effects;
        return true;
      }
      if !e.changed {
        ReplayNothing(start);
        return true;
      }
      ghost var t := SwitchEffects(e, TrueKeys(reachability), env, attempt);
      LoggedThenWrote(ElectionEffects(e), t, start);
      Appended(effects, ElectionEffects(e), t);
      over := SwitchTo(db, e, reachability, env, attempt);
      if over {
        ghost var dns := DnsOf(start, e.leader.value, env);
        DnsAfterReplay(ElectionEffects(e) + t, start, e.leader.value, env);
        UpdateDnsAndCommit(db, e.leader.value, env);
        ghost var u := dns.trace + CommitEffects(e.leader.value, dns);
        ReplayConcat(ElectionEffects(e) + t, u, start);
        Appended(effects, ElectionEffects(e) + t, u);
      }
    }

    // Disconnects the previous leader, connects the new one, and marks it dead
    // if that fails.
    method SwitchTo(db: Store, e: ElectionResult, reachability: map<nat, bool>, env: Env, attempt: nat)
      returns (committed: bool)
      requires e.leader.Some? && e.leader.value in db.hosts && ValidIds(db.Contents())
      modifies db
      ensures committed <==> AttemptCommits(e, TrueKeys(reachability), env, attempt)
      ensures Wrote(db, SwitchEffects(e, TrueKeys(reachability), env, attempt))
    {
      ghost var start, effects := db.Contents(), db.effects;
      ghost var t := DisconnectEffects(e, TrueKeys(reachability));
      ghost var u := SettleEffects(e.leader.value, TrueKeys(reachability), env, attempt);
      ReplayConcat(t, u, start);
      Appended(effects, t, u);
      DisconnectPrevious(db, e, reachability);
      FindInSameStates(start.hosts, db.hosts, e.leader.value);
      committed := SettleLeader(db, e.leader.value, reachability, env, attempt);
    }

    method SettleLeader(db: Store, l: Host, reachability: map<nat, bool>, env: Env, attempt: nat)
      returns (committed: bool)
      requires ValidIds(db.Contents())
      requires FindHost(db.hosts, l.id).Some? && FindHost(db.hosts, l.id).value.state == l.state
      modifies db
      ensures committed <==> l.id in TrueKeys(reachability) && ConnectExit(l, env, attempt) == 0
      ensures Wrote(db, SettleEffects(l, TrueKeys(reachability), env, attempt))
    {
      hide Replay, TransitionEffects, ConnectEffects, ConnectExit, FindHost;
      if l.id !in reachability || !reachability[l.id] {
        MarkDead(db, l, HealthGuard);
        return false;
      }
      ghost var start, effects := db.Contents(), db.effects;
      var exitCode := Connect(db, l, env, attempt);
      ghost var t, u := ConnectEffects(l, exitCode), TransitionEffects(l, Dead, ConnectFailed);
      if exitCode != 0 {
        ReplayConcat(t, u, start);
        Appended(effects, t, u);
        FindInSameStates(start.hosts, db.hosts, FindHost(start.hosts, l.id).value);
        MarkDead(db, l, ConnectFailed);
      }
      assert t + [] == t;
      return exitCode == 0;
    }

    method DisconnectPrevious(db: Store, e: ElectionResult, reachability: map<nat, bool>)
      modifies db
      ensures Wrote(db, DisconnectEffects(e, TrueKeys(reachability)))
      ensures SameStates(old(db.hosts), db.hosts)
    {
      ReplayNothing(db.Contents());
      if e.prevLeader.Some? {
        var prev := e.prevLeader.value;
        if prev.id in reachability && reachability[prev.id] {
          ghost var effects := db.effects;
          db.Emit(Disconnected(prev.id));
          BlankCommands(db, prev, [Disconnected(prev.id)]);
          Appended(effects, [Disconnected(prev.id)], BlankIfExhausted(prev));
        }
      }
    }

    method Connect(db: Store, leader: Host, env: Env, attempt: nat) returns (exitCode: int)
      modifies db
      ensures exitCode == ConnectExit(leader, env, attempt)
      ensures Wrote(db, ConnectEffects(leader, exitCode))
      ensures SameStates(old(db.hosts), db.hosts)
    {
      exitCode := exec.Execute(db, leader, env.connectExit(attempt));
      if exitCode == 0 {
        BlankCommands(db, leader, [Connected(leader.id, exitCode)]);
      } else {
        SilentReplay([Connected(leader.id, exitCode)], db.Contents());
      }
    }

    // Clears the commands of a host that is out of service; `logged` are the
    // silent effects just before.
    method BlankCommands(db: Store, host: Host, ghost logged: seq<Effect>)
      requires forall e :: e in logged ==> IsSilent(e)
      modifies db
      ensures db.effects == old(db.effects) + BlankIfExhausted(host)
      ensures db.Contents() == Replay(logged + BlankIfExhausted(host), old(db.Contents()))
      ensures SameStates(old(db.hosts), db.hosts)
    {
      LoggedThenWrote(logged, BlankIfExhausted(host), db.Contents());
      ReplayNothing(db.Contents());
      if host.state == Full || host.state == Dead {
        db.Emit(CommandsBlanked(host.id));
      }
    }

    method MarkDead(db: Store, leader: Host, cause: Cause)
      requires FindHost(db.hosts, leader.id).Some? && FindHost(db.hosts, leader.id).value.state == leader.state
      modifies db
      ensures Wrote(db, TransitionEffects(leader, Dead, cause))
    {
      var _ := sm.Transition(db, leader.id, Dead, cause);
    }

    method UpdateDnsAndCommit(db: Store, leader: Host, env: Env)
      modifies db
      ensures
        var dns := DnsOf(old(db.Contents()), leader, env);
        Wrote(db, dns.trace + CommitEffects(leader, dns))
    {
      ghost var start, effects := db.Contents(), db.effects;
      ghost var dns := DnsOf(start, leader, env);
      var enabled, matched := UpdateDns(db, leader, env);
      Commit(db, leader, enabled, matched);
      LoggedThenWrote(dns.trace, CommitEffects(leader, dns), start);
      Appended(effects, dns.trace, CommitEffects(leader, dns));
    }

    static function Continued(done: seq<Effect>, enabled: bool, rest: DnsRun): DnsRun {
      DnsRun(done + rest.trace, enabled || rest.enabled, rest.matched)
    }

    // Points the DNS name of the leader's pool, or else the global one, at it.
    method UpdateDns(db: Store, leader: Host, env: Env) returns (enabled: bool, matched: bool)
      modifies db
      ensures
        var dns := DnsOf(old(db.Contents()), leader, env);
        Logged(db, dns.trace) && enabled == dns.enabled && matched == dns.matched
        && forall x :: x in dns.trace ==> IsSilent(x)
    {
      hide RuleDns, GlobalDnsRun, Replay, IsSilent;
      DnsIsSilent(db.Contents(), leader, env);
      enabled, matched := UpdateByRule(db, leader, env);
      assert db.effects + [] == db.effects;
      if !enabled {
        RuleDnsDisabled(db.rules, 0, leader, env);
        enabled, matched := UpdateGlobal(db, leader, env.dnsOk(|db.rules|), env.resolves);
      }
    }

    method UpdateByRule(db: Store, leader: Host, env: Env) returns (enabled: bool, matched: bool)
      modifies db
      ensures Logged(db, RuleDns(old(db.rules), 0, leader, env).trace)
      ensures RuleDns(old(db.rules), 0, leader, env).enabled == enabled
      ensures RuleDns(old(db.rules), 0, leader, env).matched == matched
    {
      hide RuleApplies, RuleHasCreds, TrimSpace, Replay;
      ghost var total := RuleDns(db.rules, 0, leader, env);
      ghost var done: seq<Effect> := [];
      enabled, matched := false, false;
      var i := 0;
      while i < |db.rules|
        invariant 0 <= i <= |db.rules|
        invariant Logged(db, done) && !matched
        invariant total == Continued(done, enabled, RuleDns(db.rules, i, leader, env))
      {
        var rule := db.rules[i];
        if RuleApplies(rule, leader.pool) {
          enabled := true;
          var record := TrimSpace(rule.recordName);
          if RuleHasCreds(rule) {
            ghost var t := [DnsUpdated(record, leader.ip, env.dnsOk(i))];
            db.Emit(DnsUpdated(record, leader.ip, env.dnsOk(i)));
            Appended(old(db.effects), done, t);
            if env.dnsOk(i) {
              db.Emit(RemoteSynced(leader.id, record));
              db.Emit(DnsVerified(record, leader.ip));
              ghost var u := [RemoteSynced(leader.id, record)] + [DnsVerified(record, leader.ip)];
              Appended(old(db.effects), done + t, [RemoteSynced(leader.id, record)]);
              Appended(old(db.effects), done + t + [RemoteSynced(leader.id, record)], [DnsVerified(record, leader.ip)]);
              Appended(done + t, [RemoteSynced(leader.id, record)], [DnsVerified(record, leader.ip)]);
              Appended(done, t, u);
              assert t + u == RuleDns(db.rules, i, leader, env).trace;
              return true, env.resolves;
            }
            Appended(done, t, RuleDns(db.rules, i + 1, leader, env).trace);
            done := done + t;
          }
        }
        i := i + 1;
      }
      assert done + [] == done;
    }

    method UpdateGlobal(db: Store, leader: Host, ok: bool, resolves: bool) returns (enabled: bool, matched: bool)
      modifies db
      ensures
        var dns := GlobalDnsRun(old(db.global), leader, ok, resolves);
        Logged(db, dns.trace) && enabled == dns.enabled && matched == dns.matched
      ensures |db.effects| >= |old(db.effects)| && db.effects[..|old(db.effects)|] == old(db.effects)
      ensures MakesGlobalCalls(db.effects[|old(db.effects)|..], old(db.global), leader, ok)
      ensures enabled <==> TrimSpace(old(db.global).record) != ""
      ensures matched <==> enabled && resolves
    {
      hide TrimSpace, GlobalKeyCreds, TokenCreds, MakesGlobalCalls, Replay;
      GlobalCalls(db.global, leader, ok, resolves);
      ghost var sofar, made := db.effects, GlobalDnsRun(db.global, leader, ok, resolves).trace;
      assert (sofar + made)[|sofar|..] == made && (sofar + made)[..|sofar|] == sofar;
      var record := TrimSpace(db.global.record);
      assert db.effects + [] == db.effects;
      if record == "" {
        return false, false;
      }
      var byKey := GlobalKeyCreds(db.global.email, db.global.apiKey, db.global.zoneName);
      if byKey || TokenCreds(db.global.apiToken, db.global.zoneId) {
        db.Emit(DnsUpdated(record, leader.ip, ok));
      }
      if byKey {
        db.Emit(RemoteSynced(leader.id, record));
      }
      db.Emit(DnsVerified(record, leader.ip));
      return true, resolves;
    }

    // The leader is committed by three separate writes.
    method Commit(db: Store, leader: Host, enabled: bool, matched: bool)
      modifies db
      ensures Wrote(db, CommitEffects(leader, DnsRun([], enabled, matched)))
    {
      hide Replay;
      ghost var start, effects := db.Contents(), db.effects;
      WriteLeader(db, leader.id);
      ghost var now := db.Contents();
      db.Emit(Notified(LeaderChangedNotice));
      if enabled {
        db.Emit(Notified(if matched then DdnsMatchNotice else DdnsMismatchNotice));
      }
      ghost var t := [FlagsCleared(leader.id), FlagSet(leader.id), LeaderStored(leader.id)];
      ghost var all := CommitEffects(leader, DnsRun([], enabled, matched));
      ReplayConcat(t, all[3..], start);
      SilentReplay(all[3..], now);
      assert all == t + all[3..];
      assert db.effects == effects + t + all[3..];
      Appended(effects, t, all[3..]);
    }

    method WriteLeader(db: Store, id: nat)
      modifies db
      ensures Wrote(db, [FlagsCleared(id), FlagSet(id), LeaderStored(id)])
    {
      hide Replay;
      ghost var start := db.Contents();
      db.Emit(FlagsCleared(id));
      db.Emit(FlagSet(id));
      db.Emit(LeaderStored(id));
      ReplayConcat([FlagsCleared(id)], [FlagSet(id)], start);
      ReplayConcat([FlagsCleared(id), FlagSet(id)], [LeaderStored(id)], start);
      assert [FlagsCleared(id)] + [FlagSet(id)] == [FlagsCleared(id), FlagSet(id)];
      assert [FlagsCleared(id), FlagSet(id)] + [LeaderStored(id)] == [FlagsCleared(id), FlagSet(id), LeaderStored(id)];
    }
  }

  lemma {:induction false} RuleDnsDisabled(rules: seq<Rule>, i: nat, leader: Host, env: Env)
    ensures !RuleDns(rules, i, leader, env).enabled ==> RuleDns(rules, i, leader, env).trace == []
    decreases |rules| - i
  {
    if i < |rules| {
      RuleDnsDisabled(rules, i + 1, leader, env);
    }
  }

  // The calls made for the global record, each at most once: an update with
  // either kind of credentials, a sync with those of an API key, and always, as
  // the last one, a look whether the name resolves. How the update went does not
  // decide whether the other two are made.
  ghost predicate MakesGlobalCalls(t: seq<Effect>, global: GlobalDns, leader: Host, ok: bool) {
    var record := TrimSpace(global.record);
    var byKey := GlobalKeyCreds(global.email, global.apiKey, global.zoneName);
    && (record == "" <==> t == [])
    && (DnsUpdated(record, leader.ip, ok) in t <==>
         record != "" && (byKey || TokenCreds(global.apiToken, global.zoneId)))
    && (RemoteSynced(leader.id, record) in t <==> record != "" && byKey)
    && (record != "" ==> t[|t| - 1] == DnsVerified(record, leader.ip))
    && (forall i, j :: 0 <= i < j < |t| ==> t[i] != t[j] && !t[j].DnsUpdated?)
    && (forall e :: e in t ==>
         e == DnsUpdated(record, leader.ip, ok) || e == RemoteSynced(leader.id, record) ||
         e == DnsVerified(record, leader.ip))
  }

  lemma GlobalCalls(global: GlobalDns, leader: Host, ok: bool, resolves: bool)
    ensures
      var dns := GlobalDnsRun(global, leader, ok, resolves);
      && MakesGlobalCalls(dns.trace, global, leader, ok)
      && (dns.enabled <==> TrimSpace(global.record) != "") && (dns.matched <==> dns.enabled && resolves)
  {
    hide TrimSpace, GlobalKeyCreds, TokenCreds;
  }

  // Neither the rules nor the global record are touched by a cycle.
  lemma DnsAfterReplay(t: seq<Effect>, db: Db, leader: Host, env: Env)
    ensures DnsOf(Replay(t, db), leader, env) == DnsOf(db, leader, env)
  {
  }

  function ResultsOf(hosts: seq<Host>, s: Streaks, env: Env): seq<CheckResult> {
    if |hosts| == 0 then []
    else ResultsOf(hosts[..|hosts| - 1], s, env) + [ResultOf(hosts[|hosts| - 1], s, env)]
  }

  lemma {:induction false} ResultsOfAt(hosts: seq<Host>, s: Streaks, env: Env)
    ensures |ResultsOf(hosts, s, env)| == |hosts|
    ensures forall k :: 0 <= k < |hosts| ==> ResultsOf(hosts, s, env)[k] == ResultOf(hosts[k], s, env)
  {
    if |hosts| > 0 {
      ResultsOfAt(hosts[..|hosts| - 1], s, env);
    }
  }

  lemma ReachableAgrees(hosts: seq<Host>, s: Streaks, env: Env, results: seq<CheckResult>, m: map<nat, bool>)
    requires |results| == |hosts|
    requires forall k :: 0 <= k < |hosts| ==> results[k] == ResultOf(hosts[k], s, env)
    requires forall k :: 0 <= k < |hosts| ==>
      hosts[k].id in m && m[hosts[k].id] == (results[k].reachable && results[k].sshReachable)
    requires forall id :: id in m ==> exists k :: 0 <= k < |hosts| && hosts[k].id == id
    ensures TrueKeys(m) == ReachableIds(hosts, s, env)
  {
  }

  // What the loop over the hosts adds for host i.
  lemma CheckStep(hosts: seq<Host>, i: nat, s: Streaks, env: Env, db: Db, effects: seq<Effect>)
    requires DistinctIds(hosts) && i < |hosts| && db.hosts == hosts
    ensures
      var t := CheckTrace(hosts[..i], s, env);
      var u := CheckEffects(hosts[i], ResultOf(hosts[i], s, env));
      && effects + t + u == effects + CheckTrace(hosts[..i + 1], s, env)
      && Replay(u, Replay(t, db)) == Replay(CheckTrace(hosts[..i + 1], s, env), db)
      && FindHost(Replay(t, db).hosts, hosts[i].id) == Some(hosts[i])
      && ResultsOf(hosts[..i + 1], s, env) == ResultsOf(hosts[..i], s, env) + [ResultOf(hosts[i], s, env)]
    ensures
      var before := CountHosts(s, hosts[..i], env);
      var id := hosts[i].id;
      && CountHosts(s, hosts[..i + 1], env) ==
         Streaks(before.fail[id := FailAfter(before, id, env)], before.recover[id := RecoverAfter(before, id, env)])
      && ResultOf(hosts[i], before, env) == ResultOf(hosts[i], s, env)
  {
    hide *;
    FrontSteps(hosts, i, s, env);
    CountStep(hosts, i, s, env);
    RowStillCurrent(hosts, i, s, env);
    ReplayRows(CheckTrace(hosts[..i], s, env), db);
    var t, u := CheckTrace(hosts[..i], s, env), CheckEffects(hosts[i], ResultOf(hosts[i], s, env));
    ReplayConcat(t, u, db);
    Appended(effects, t, u);
  }

  lemma FrontSteps(hosts: seq<Host>, i: nat, s: Streaks, env: Env)
    requires i < |hosts|
    ensures CheckTrace(hosts[..i + 1], s, env) ==
      CheckTrace(hosts[..i], s, env) + CheckEffects(hosts[i], ResultOf(hosts[i], s, env))
    ensures ResultsOf(hosts[..i + 1], s, env) == ResultsOf(hosts[..i], s, env) + [ResultOf(hosts[i], s, env)]
  {
    hide CheckEffects, ResultOf;
    assert hosts[..i + 1][..i] == hosts[..i];
  }

  lemma CountStep(hosts: seq<Host>, i: nat, s: Streaks, env: Env)
    requires DistinctIds(hosts) && i < |hosts|
    ensures
      var before := CountHosts(s, hosts[..i], env);
      var id := hosts[i].id;
      && CountHosts(s, hosts[..i + 1], env) ==
         Streaks(before.fail[id := FailAfter(before, id, env)], before.recover[id := RecoverAfter(before, id, env)])
      && ResultOf(hosts[i], before, env) == ResultOf(hosts[i], s, env)
  {
    assert hosts[..i + 1][..i] == hosts[..i];
    CountHostsFrame(s, hosts[..i], env, hosts[i].id);
  }

  lemma ReplayRows(t: seq<Effect>, db: Db)
    ensures Replay(t, db).hosts == RowsAfterAll(t, db.hosts)
  {
    hide RowsAfterAll;
  }

  // While host i is being checked, its row is still the one that was read.
  lemma RowStillCurrent(hosts: seq<Host>, i: nat, s: Streaks, env: Env)
    requires DistinctIds(hosts) && i < |hosts|
    ensures FindHost(RowsAfterAll(CheckTrace(hosts[..i], s, env), hosts), hosts[i].id) == Some(hosts[i])
  {
    var rows := RowsAfterAll(CheckTrace(hosts[..i], s, env), hosts);
    CheckTraceFrame(hosts[..i], s, env, hosts[i]);
    FindHostIsRow(rows, i);
  }

  lemma LoggedThenWrote(logged: seq<Effect>, t: seq<Effect>, db: Db)
    requires forall e :: e in logged ==> IsSilent(e)
    ensures Replay(logged + t, db) == Replay(t, db)
  {
    SilentReplay(logged, db);
    ReplayConcat(logged, t, db);
  }

  // The breaker and its notices leave the database as the checks left it.
  lemma CycleReplay(w: World, env: Env)
    ensures Replay(CycleTrace(w, env), w.db) == Replay(CycleLoop(w, env).trace, CheckedDb(w, env))
  {
    hide *;
    CycleIs(w, env);
    BreakerIsSilent(w, env);
    var t1 := CheckTrace(w.db.hosts, w.streaks, env);
    ReplayConcat(t1 + BreakerTrace(w, env), CycleLoop(w, env).trace, w.db);
    ReplayConcat(t1, BreakerTrace(w, env), w.db);
    SilentReplay(BreakerTrace(w, env), CheckedDb(w, env));
  }

  lemma BreakerIsSilent(w: World, env: Env)
    ensures forall e :: e in BreakerTrace(w, env) ==> IsSilent(e)
  {
    hide CheckedDb, ShouldOpen;
  }

  lemma {:induction false} RuleDnsIsSilent(rules: seq<Rule>, i: nat, leader: Host, env: Env)
    ensures forall e :: e in RuleDns(rules, i, leader, env).trace ==> IsSilent(e)
    decreases |rules| - i
  {
    hide RuleApplies, RuleHasCreds, TrimSpace;
    if i < |rules| {
      RuleDnsIsSilent(rules, i + 1, leader, env);
    }
  }

  lemma DnsIsSilent(db: Db, leader: Host, env: Env)
    ensures forall e :: e in DnsOf(db, leader, env).trace ==> IsSilent(e)
  {
    RuleDnsIsSilent(db.rules, 0, leader, env);
  }
}
