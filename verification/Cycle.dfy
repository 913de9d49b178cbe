// What one polling cycle (engine/poller.go, RunOnce) does, as a function of the
// world it starts from and of everything it reads from outside.
module Cycles {
  import opened Text
  import opened Models
  import opened StateMachines
  import opened Elections
  import opened Circuits

  const MAX_ELECT_RETRIES: nat := 3
  const HOST_FAIL_THRESHOLD: nat := 3
  const HOST_RECOVER_THRESHOLD: nat := 2

  // A host's latest heartbeat, already compared with the clock.
  datatype Heartbeat =
    | Missing
    | Stale(trafficIn: int, trafficOut: int)
    | Fresh(networkOk: bool, sshOk: bool, trafficIn: int, trafficOut: int)

  // What a cycle learns from outside: the heartbeats by host id, the exit code
  // of the connect command of each attempt, which DNS update calls succeed (by
  // rule index, |rules| for the global record), whether the name then resolves
  // to the leader, and how each attempt's sort.Slice orders equal priorities.
  datatype Env = Env(
    heartbeat: nat -> Heartbeat,
    connectExit: nat -> int,
    dnsOk: nat -> bool,
    resolves: bool,
    tie: nat -> TieBreak)

  // The flapping guards of the poller.
  datatype Streaks = Streaks(fail: map<nat, nat>, recover: map<nat, nat>)

  datatype World = World(db: Db, streaks: Streaks, open: bool)

  // Check phase

  predicate BaseReachable(hb: Heartbeat) {
    hb.Fresh? && hb.networkOk && hb.sshOk
  }

  function Streak(m: map<nat, nat>, id: nat): nat {
    if id in m then m[id] else 0
  }

  function FailAfter(s: Streaks, id: nat, env: Env): nat {
    if BaseReachable(env.heartbeat(id)) then 0 else Streak(s.fail, id) + 1
  }

  function RecoverAfter(s: Streaks, id: nat, env: Env): nat {
    if BaseReachable(env.heartbeat(id)) then Streak(s.recover, id) + 1 else 0
  }

  function CountHosts(s: Streaks, hosts: seq<Host>, env: Env): Streaks {
    if |hosts| == 0 then s
    else
      var before := CountHosts(s, hosts[..|hosts| - 1], env);
      var id := hosts[|hosts| - 1].id;
      Streaks(before.fail[id := FailAfter(before, id, env)], before.recover[id := RecoverAfter(before, id, env)])
  }

  // Hysteresis: a Dead host must be confirmed up, any other confirmed down.
  predicate EffectiveReachable(state: HostState, base: bool, fail: nat, recover: nat) {
    if state == Dead then base && recover >= HOST_RECOVER_THRESHOLD
    else base || fail < HOST_FAIL_THRESHOLD
  }

  function ResultOf(h: Host, s: Streaks, env: Env): CheckResult {
    var hb := env.heartbeat(h.id);
    var fail, recover := FailAfter(s, h.id, env), RecoverAfter(s, h.id, env);
    var reachable := EffectiveReachable(h.state, BaseReachable(hb), fail, recover);
    CheckResult(reachable, reachable,
                if hb.Missing? then 0 else hb.trafficIn,
                if hb.Missing? then 0 else hb.trafficOut)
  }

  function CheckTrace(hosts: seq<Host>, s: Streaks, env: Env): seq<Effect> {
    if |hosts| == 0 then []
    else
      var h := hosts[|hosts| - 1];
      CheckTrace(hosts[..|hosts| - 1], s, env) + CheckEffects(h, ResultOf(h, s, env))
  }

  function ReachableIds(hosts: seq<Host>, s: Streaks, env: Env): set<nat> {
    set i | 0 <= i < |hosts| && ResultOf(hosts[i], s, env).reachable :: hosts[i].id
  }

  // Election loop

  function DisconnectEffects(e: ElectionResult, reach: set<nat>): seq<Effect> {
    if e.prevLeader.Some? && e.prevLeader.value.id in reach then
      [Disconnected(e.prevLeader.value.id)] + BlankIfExhausted(e.prevLeader.value)
    else []
  }

  function BlankIfExhausted(h: Host): seq<Effect> {
    if h.state == Full || h.state == Dead then [CommandsBlanked(h.id)] else []
  }

  // A blank command is not run and counts as a success.
  function ConnectExit(h: Host, env: Env, attempt: nat): int {
    if TrimSpace(h.preCommand) == "" then 0 else env.connectExit(attempt)
  }

  function ConnectEffects(h: Host, exitCode: int): seq<Effect> {
    [Connected(h.id, exitCode)] + if exitCode == 0 then BlankIfExhausted(h) else []
  }

  function ConnectAndMark(h: Host, env: Env, attempt: nat): seq<Effect> {
    var exitCode := ConnectExit(h, env, attempt);
    ConnectEffects(h, exitCode) + if exitCode != 0 then TransitionEffects(h, Dead, ConnectFailed) else []
  }

  predicate GlobalKeyCreds(email: string, apiKey: string, zoneName: string) {
    TrimSpace(email) != "" && TrimSpace(apiKey) != "" && TrimSpace(zoneName) != ""
  }

  predicate TokenCreds(apiToken: string, zoneId: string) {
    TrimSpace(apiToken) != "" && TrimSpace(zoneId) != ""
  }

  // An enabled rule for this pool that names a record.
  predicate RuleApplies(rule: Rule, pool: string) {
    && rule.enabled
    && TrimSpace(rule.pool) == TrimSpace(pool)
    && TrimSpace(rule.recordName) != ""
  }

  predicate RuleHasCreds(rule: Rule) {
    || GlobalKeyCreds(rule.cfEmail, rule.cfApiKey, rule.cfZoneName)
    || TokenCreds(rule.cfApiToken, rule.cfZoneId)
  }

  datatype DnsRun = DnsRun(trace: seq<Effect>, enabled: bool, matched: bool)

  // Rules i and later, stopping at the first that updates its record.
  function RuleDns(rules: seq<Rule>, i: nat, leader: Host, env: Env): DnsRun
    decreases |rules| - i
  {
    if i >= |rules| then DnsRun([], false, false)
    else if !RuleApplies(rules[i], leader.pool) then RuleDns(rules, i + 1, leader, env)
    else
      var record := TrimSpace(rules[i].recordName);
      if !RuleHasCreds(rules[i]) then
        RuleDns(rules, i + 1, leader, env).(enabled := true)
      else if !env.dnsOk(i) then
        var rest := RuleDns(rules, i + 1, leader, env);
        DnsRun([DnsUpdated(record, leader.ip, false)] + rest.trace, true, rest.matched)
      else
        DnsRun([DnsUpdated(record, leader.ip, true), RemoteSynced(leader.id, record), DnsVerified(record, leader.ip)],
               true, env.resolves)
  }

  function GlobalDnsRun(global: GlobalDns, leader: Host, ok: bool, resolves: bool): DnsRun {
    var record := TrimSpace(global.record);
    var byKey := GlobalKeyCreds(global.email, global.apiKey, global.zoneName);
    var byToken := TokenCreds(global.apiToken, global.zoneId);
    if record == "" then DnsRun([], false, false)
    else
      DnsRun(
        (if byKey || byToken then [DnsUpdated(record, leader.ip, ok)] else [])
        + (if byKey then [RemoteSynced(leader.id, record)] else [])
        + [DnsVerified(record, leader.ip)],
        true, resolves)
  }

  function DnsOf(db: Db, leader: Host, env: Env): DnsRun {
    var byRule := RuleDns(db.rules, 0, leader, env);
    if byRule.enabled then byRule
    else GlobalDnsRun(db.global, leader, env.dnsOk(|db.rules|), env.resolves)
  }

  function CommitEffects(leader: Host, dns: DnsRun): seq<Effect> {
    [FlagsCleared(leader.id), FlagSet(leader.id), LeaderStored(leader.id), Notified(LeaderChangedNotice)]
    + if dns.enabled then [Notified(if dns.matched then DdnsMatchNotice else DdnsMismatchNotice)] else []
  }

  // What an attempt does once a new leader is elected, up to the outcome of
  // its connect command.
  function SwitchEffects(e: ElectionResult, reach: set<nat>, env: Env, attempt: nat): seq<Effect>
    requires e.leader.Some?
  {
    DisconnectEffects(e, reach) + SettleEffects(e.leader.value, reach, env, attempt)
  }

  function SettleEffects(h: Host, reach: set<nat>, env: Env, attempt: nat): seq<Effect> {
    if h.id !in reach then TransitionEffects(h, Dead, HealthGuard) else ConnectAndMark(h, env, attempt)
  }

  predicate AttemptCommits(e: ElectionResult, reach: set<nat>, env: Env, attempt: nat)
    requires e.leader.Some?
  {
    e.leader.value.id in reach && ConnectExit(e.leader.value, env, attempt) == 0
  }

  // One attempt; `over` means the cycle makes no further attempt.
  datatype Attempt = Attempt(trace: seq<Effect>, open: bool, over: bool)

  function AttemptOf(db: Db, open: bool, currentLeaderId: nat, reach: set<nat>, env: Env, attempt: nat): Attempt {
    var e := ElectionOf(db.hosts, currentLeaderId, env.tie(attempt));
    if e.leader.None? then
      var open' := ShouldOpen(db.hosts);
      Attempt(CircuitEffects(open, open') + [Notified(CircuitOpenNotice)], open', true)
    else if !e.changed then Attempt([], open, true)
    else
      var t := ElectionEffects(e) + SwitchEffects(e, reach, env, attempt);
      if !AttemptCommits(e, reach, env, attempt) then Attempt(t, open, false)
      else
        var dns := DnsOf(db, e.leader.value, env);
        Attempt(t + (dns.trace + CommitEffects(e.leader.value, dns)), open, true)
  }

  datatype LoopRun = LoopRun(trace: seq<Effect>, open: bool)

  function ElectLoop(db: Db, open: bool, currentLeaderId: nat, reach: set<nat>, env: Env, attempt: nat): LoopRun
    decreases MAX_ELECT_RETRIES - attempt
  {
    if attempt >= MAX_ELECT_RETRIES then LoopRun([], open)
    else
      var a := AttemptOf(db, open, currentLeaderId, reach, env, attempt);
      if a.over then LoopRun(a.trace, a.open)
      else
        var rest := ElectLoop(Replay(a.trace, db), a.open, 0, reach, env, attempt + 1);
        LoopRun(a.trace + rest.trace, rest.open)
  }

  // The whole cycle

  function CheckedDb(w: World, env: Env): Db {
    Replay(CheckTrace(w.db.hosts, w.streaks, env), w.db)
  }

  function BreakerEffects(wasOpen: bool, open: bool): seq<Effect> {
    CircuitEffects(wasOpen, open) +
    if wasOpen != open then [Notified(if open then CircuitOpenNotice else CircuitCloseNotice)] else []
  }

  function BreakerTrace(w: World, env: Env): seq<Effect> {
    BreakerEffects(w.open, ShouldOpen(CheckedDb(w, env).hosts))
  }

  function CycleLoop(w: World, env: Env): LoopRun {
    var db := CheckedDb(w, env);
    if ShouldOpen(db.hosts) then LoopRun([], true)
    else ElectLoop(db, false, db.leader, ReachableIds(w.db.hosts, w.streaks, env), env, 0)
  }

  function CycleTrace(w: World, env: Env): seq<Effect> {
    CheckTrace(w.db.hosts, w.streaks, env) + BreakerTrace(w, env) + CycleLoop(w, env).trace
  }

  function Cycle(w: World, env: Env): World {
    World(Replay(CycleTrace(w, env), w.db), CountHosts(w.streaks, w.db.hosts, env), CycleLoop(w, env).open)
  }

  // A cycle, part by part.
  lemma CycleIs(w: World, env: Env)
    ensures CheckedDb(w, env) == Replay(CheckTrace(w.db.hosts, w.streaks, env), w.db)
    ensures CycleTrace(w, env) ==
      CheckTrace(w.db.hosts, w.streaks, env) + BreakerTrace(w, env) + CycleLoop(w, env).trace
    ensures Cycle(w, env).open == CycleLoop(w, env).open
    ensures
      var db := CheckedDb(w, env);
      CycleLoop(w, env) ==
        if ShouldOpen(db.hosts) then LoopRun([], true)
        else ElectLoop(db, false, db.leader, ReachableIds(w.db.hosts, w.streaks, env), env, 0)
  {
    hide ElectLoop, Replay, CheckTrace, BreakerTrace, ShouldOpen, ReachableIds;
  }
}
