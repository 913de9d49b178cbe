// Which DNS name belongs to a leader: the poller's choice (engine/poller.go) and
// the one VerifyDDNS looks up (api/ddns.go).
module DdnsNames {
  import opened Text
  import opened Models
  import opened StateMachines
  import opened Storage
  import opened Cycles
  import opened CheckPhase
  import opened Failover
  import opened CycleTheorems
  import opened TraceSafety
  import opened DdnsRules

  // The record of the first enabled rule for the pool that names one.
  function RuleRecord(rules: seq<Rule>, i: nat, pool: string): string
    decreases |rules| - i
  {
    if i >= |rules| then ""
    else if RuleApplies(rules[i], pool) then TrimSpace(rules[i].recordName)
    else RuleRecord(rules, i + 1, pool)
  }

  // The name VerifyDDNS looks up for a leader of this pool; "" if there is none.
  function VerifyRecord(db: Db, pool: string): string {
    var record := RuleRecord(db.rules, 0, pool);
    if record != "" then record else TrimSpace(db.global.record)
  }

  // By the fields: the record of the first rule that is enabled for the pool and
  // names one, or, with no such rule, the global record.
  lemma VerifyRecordIs(db: Db, pool: string, j: nat)
    requires j <= |db.rules|
    requires forall m :: 0 <= m < j ==>
      !db.rules[m].enabled || TrimSpace(db.rules[m].pool) != TrimSpace(pool) || TrimSpace(db.rules[m].recordName) == ""
    requires j < |db.rules| ==>
      db.rules[j].enabled && TrimSpace(db.rules[j].pool) == TrimSpace(pool) && TrimSpace(db.rules[j].recordName) != ""
    ensures VerifyRecord(db, pool) == TrimSpace(if j < |db.rules| then db.rules[j].recordName else db.global.record)
  {
    hide TrimSpace;
    RuleRecordSkips(db.rules, 0, j, pool);
  }

  lemma {:induction false} RuleRecordSkips(rules: seq<Rule>, i: nat, j: nat, pool: string)
    requires i <= j <= |rules| && forall m :: i <= m < j ==> !RuleApplies(rules[m], pool)
    ensures RuleRecord(rules, i, pool) == RuleRecord(rules, j, pool)
    decreases j - i
  {
    hide RuleApplies;
    if i < j {
      RuleRecordSkips(rules, i + 1, j, pool);
    }
  }

  method VerifyDdns(db: Store) returns (record: Option<string>)
    ensures
      var leader := FindHost(db.hosts, db.leader);
      var name := if leader.Some? then VerifyRecord(db.Contents(), leader.value.pool) else "";
      record == if db.leader == 0 || name == "" then None else Some(name)
  {
    var leader := FindHost(db.hosts, db.leader);
    if db.leader == 0 || leader.None? {
      return None;
    }
    var pool := leader.value.pool;
    var recordName := "";
    var i := 0;
    while i < |db.rules| && recordName == ""
      invariant 0 <= i <= |db.rules|
      invariant RuleRecord(db.rules, 0, pool) == if recordName != "" then recordName else RuleRecord(db.rules, i, pool)
    {
      var rule := db.rules[i];
      if rule.enabled && TrimSpace(rule.pool) == TrimSpace(pool) {
        recordName := TrimSpace(rule.recordName);
      }
      i := i + 1;
    }
    if recordName == "" {
      recordName := TrimSpace(db.global.record);
    }
    return if recordName == "" then None else Some(recordName);
  }

  function RecordOf(e: Effect): string
    requires IsDns(e)
  {
    e.record
  }

  ghost predicate OnlyRecord(t: seq<Effect>, record: string) {
    forall e :: e in t ==> IsDns(e) && RecordOf(e) == record
  }

  // Every applicable rule with credentials from i on names this record.
  ghost predicate OneTarget(rules: seq<Rule>, i: nat, pool: string, record: string) {
    forall j :: i <= j < |rules| && RuleApplies(rules[j], pool) && RuleHasCreds(rules[j]) ==>
      TrimSpace(rules[j].recordName) == record
  }

  lemma {:induction false} RuleDnsRecords(rules: seq<Rule>, i: nat, leader: Host, env: Env, record: string)
    requires OneTarget(rules, i, leader.pool, record)
    ensures OnlyRecord(RuleDns(rules, i, leader, env).trace, record)
    decreases |rules| - i
  {
    hide RuleApplies, RuleHasCreds;
    if i < |rules| {
      RuleDnsRecords(rules, i + 1, leader, env, record);
    }
  }

  lemma {:induction false} RuleDnsEnabled(rules: seq<Rule>, i: nat, leader: Host, env: Env)
    ensures RuleDns(rules, i, leader, env).enabled <==> RuleRecord(rules, i, leader.pool) != ""
    decreases |rules| - i
  {
    if i < |rules| {
      RuleDnsEnabled(rules, i + 1, leader, env);
    }
  }

  // Whatever calls succeed, the poller touches only the name VerifyDDNS looks
  // up, provided that every applicable rule with credentials names it.
  lemma DnsOfRecord(db: Db, leader: Host, env: Env)
    requires RuleRecord(db.rules, 0, leader.pool) != "" ==>
      OneTarget(db.rules, 0, leader.pool, VerifyRecord(db, leader.pool))
    ensures OnlyRecord(DnsOf(db, leader, env).trace, VerifyRecord(db, leader.pool))
  {
    hide RuleDns, RuleRecord, RuleApplies, RuleHasCreds, TrimSpace;
    RuleDnsEnabled(db.rules, 0, leader, env);
    if RuleRecord(db.rules, 0, leader.pool) != "" {
      RuleDnsRecords(db.rules, 0, leader, env, VerifyRecord(db, leader.pool));
    }
  }

  // The condition is exact: when a rule breaks it and the update calls fail, the
  // poller calls for that rule's name as well.
  lemma {:induction false} RuleDnsReaches(rules: seq<Rule>, i: nat, j: nat, leader: Host, env: Env)
    requires i <= j < |rules| && RuleApplies(rules[j], leader.pool) && RuleHasCreds(rules[j])
    requires forall n :: !env.dnsOk(n)
    ensures DnsUpdated(TrimSpace(rules[j].recordName), leader.ip, false) in RuleDns(rules, i, leader, env).trace
    decreases j - i
  {
    hide RuleApplies, RuleHasCreds;
    if i < j {
      RuleDnsReaches(rules, i + 1, j, leader, env);
    }
  }

  lemma OneNameExactly(db: Db, leader: Host)
    ensures (forall env: Env :: OnlyRecord(DnsOf(db, leader, env).trace, VerifyRecord(db, leader.pool)))
      <==> OneTarget(db.rules, 0, leader.pool, VerifyRecord(db, leader.pool))
  {
    hide RuleDns, RuleRecord, RuleApplies, RuleHasCreds, TrimSpace, VerifyRecord;
    var record := VerifyRecord(db, leader.pool);
    if OneTarget(db.rules, 0, leader.pool, record) {
      forall env: Env ensures OnlyRecord(DnsOf(db, leader, env).trace, record) {
        DnsOfRecord(db, leader, env);
      }
    } else {
      var j :| 0 <= j < |db.rules| && RuleApplies(db.rules[j], leader.pool) && RuleHasCreds(db.rules[j])
        && TrimSpace(db.rules[j].recordName) != record;
      var env := Env(_ => Missing, _ => 0, _ => false, false, _ => _ => 0);
      RuleDnsEnabled(db.rules, 0, leader, env);
      RuleDnsEnabledBy(db.rules, 0, leader, env);
      RuleDnsReaches(db.rules, 0, j, leader, env);
      assert !OnlyRecord(DnsOf(db, leader, env).trace, record);
    }
  }

  // Rules that went through normalizeDDNSRules meet it: one pool, one rule.
  lemma {:induction false} NormalizedOneTarget(rules: seq<Rule>, i: nat, pool: string)
    requires WellFormed(rules)
    ensures OneTarget(rules, i, pool, RuleRecord(rules, i, pool))
    decreases |rules| - i
  {
    if i < |rules| {
      NormalizedOneTarget(rules, i + 1, pool);
      if RuleApplies(rules[i], pool) {
        TrimSpaceTrims(rules[i].pool);
        forall j | i < j < |rules| ensures !RuleApplies(rules[j], pool) {
          TrimSpaceTrims(rules[j].pool);
          assert WellFormedRule(rules[i]) && WellFormedRule(rules[j]);
        }
      }
    }
  }

  // With rules that went through normalizeDDNSRules, all DNS effects of a cycle
  // are on one name, and it is the one VerifyDDNS looks up for the leader the
  // cycle stored.
  lemma CycleTouchesVerifiedName(w: World, env: Env, e: Effect)
    requires ValidIds(w.db) && WellFormed(w.db.rules)
    ensures
      var after := Cycle(w, env).db;
      var leader := FindHost(after.hosts, after.leader);
      e in CycleTrace(w, env) && IsDns(e) ==> leader.Some? && RecordOf(e) == VerifyRecord(after, leader.value.pool)
  {
    hide *;
    if e in CycleTrace(w, env) && IsDns(e) {
      var i :| 0 <= i < |CycleTrace(w, env)| && CycleTrace(w, env)[i] == e;
      var pre, l := CycleShape(w, env);
      var db := CheckedDb(w, env);
      CheckedRows(w, env);
      DnsIsLate(CycleTrace(w, env), db, env, pre, l, i);
      DnsIn(CycleTrace(w, env), db, env, pre, l, i);
      NormalizedRecord(db, l.value, env, e);
      CycleKeeps(w, env, l.value);
    }
  }

  lemma NormalizedRecord(db: Db, l: Host, env: Env, e: Effect)
    requires WellFormed(db.rules) && e in DnsOf(db, l, env).trace
    ensures IsDns(e) && RecordOf(e) == VerifyRecord(db, l.pool)
  {
    hide DnsOf, RuleRecord, WellFormed, OneTarget;
    NormalizedOneTarget(db.rules, 0, l.pool);
    DnsOfRecord(db, l, env);
  }

  lemma DnsIn(t: seq<Effect>, db: Db, env: Env, pre: seq<Effect>, l: Option<Host>, i: nat)
    requires Shaped(t, db, env, pre, l) && i < |t| && IsDns(t[i]) && l.Some?
    ensures t[i] in DnsOf(db, l.value, env).trace
  {
    hide DnsOf;
    var dns := DnsOf(db, l.value, env);
    var commit := CommitEffects(l.value, dns);
    assert forall j :: 0 <= j < |pre| ==> pre[j] in pre;
    assert t == pre + [Connected(l.value.id, 0)] + dns.trace + commit;
    var n := |pre| + 1 + |dns.trace|;
    forall p | n <= p < |t| ensures !IsDns(t[p]) {
      assert t[p] == commit[p - n];
    }
    assert t[i] == dns.trace[i - |pre| - 1];
  }

  // A cycle leaves ids, pools, rules and the global record alone.
  lemma CycleKeeps(w: World, env: Env, l: Host)
    requires ValidIds(w.db) && l in CheckedDb(w, env).hosts
    ensures
      var after := Cycle(w, env).db;
      && FindHost(after.hosts, l.id).Some? && FindHost(after.hosts, l.id).value.pool == l.pool
      && VerifyRecord(after, l.pool) == VerifyRecord(CheckedDb(w, env), l.pool)
  {
    hide *;
    CycleDb(w, env);
    CheckedRows(w, env);
    var db := CheckedDb(w, env);
    var i :| 0 <= i < |db.hosts| && db.hosts[i] == l;
    RowOf(w, env, i);
    ReplayKeeps(CycleTrace(w, env), w.db, i);
    SameNames(db, Cycle(w, env).db, l.pool);
  }

  lemma RowOf(w: World, env: Env, i: nat)
    requires i < |w.db.hosts| && |CheckedDb(w, env).hosts| == |w.db.hosts|
    requires CheckedDb(w, env).hosts[i] == CheckedRow(w.db.hosts[i], w.streaks, env)
    ensures CheckedDb(w, env).hosts[i].id == w.db.hosts[i].id
    ensures CheckedDb(w, env).hosts[i].pool == w.db.hosts[i].pool
  {
    hide CheckedDb, StateAfterCheck, ResultOf;
  }

  lemma ReplayKeeps(t: seq<Effect>, db: Db, i: nat)
    requires ValidIds(db) && i < |db.hosts|
    ensures
      var row := FindHost(Replay(t, db).hosts, db.hosts[i].id);
      row.Some? && row.value.pool == db.hosts[i].pool
    ensures Replay(t, db).rules == db.rules && Replay(t, db).global == db.global
  {
    FindHostIsRow(Replay(t, db).hosts, i);
  }

  lemma SameNames(db: Db, after: Db, pool: string)
    requires after.rules == db.rules && after.global == db.global
    ensures VerifyRecord(after, pool) == VerifyRecord(db, pool)
  {
  }

  // Which rules are called

  // The rules from i on that the poller may call for, in order.
  function Callable(rules: seq<Rule>, i: nat, pool: string): seq<nat>
    decreases |rules| - i
  {
    if i >= |rules| then []
    else (if RuleApplies(rules[i], pool) && RuleHasCreds(rules[i]) then [i] else []) + Callable(rules, i + 1, pool)
  }

  lemma {:induction false} CallableAre(rules: seq<Rule>, i: nat, pool: string)
    ensures forall j :: j in Callable(rules, i, pool) <==>
      i <= j < |rules| && RuleApplies(rules[j], pool) && RuleHasCreds(rules[j])
    ensures forall m, n :: 0 <= m < n < |Callable(rules, i, pool)| ==>
      Callable(rules, i, pool)[m] < Callable(rules, i, pool)[n]
    decreases |rules| - i
  {
    hide RuleApplies, RuleHasCreds;
    if i < |rules| {
      CallableAre(rules, i + 1, pool);
      var rest := Callable(rules, i + 1, pool);
      assert forall m :: 0 <= m < |rest| ==> rest[m] in rest;
    }
  }

  // How many callable rules fail before the first call that succeeds.
  function CallsBefore(calls: seq<nat>, env: Env): (k: nat)
    ensures k <= |calls|
    ensures forall m :: 0 <= m < k ==> !env.dnsOk(calls[m])
    ensures k < |calls| ==> env.dnsOk(calls[k])
  {
    if |calls| == 0 || env.dnsOk(calls[0]) then 0
    else
      var k := CallsBefore(calls[1..], env);
      assert forall m :: 0 < m < k + 1 ==> calls[m] == calls[1..][m - 1];
      k + 1
  }

  function CallOf(rules: seq<Rule>, j: nat, leader: Host, ok: bool): Effect {
    DnsUpdated(if j < |rules| then TrimSpace(rules[j].recordName) else "", leader.ip, ok)
  }

  function FailedCalls(rules: seq<Rule>, calls: seq<nat>, leader: Host): seq<Effect> {
    seq(|calls|, m requires 0 <= m < |calls| => CallOf(rules, calls[m], leader, false))
  }

  function SuccessfulCall(rules: seq<Rule>, j: nat, leader: Host): seq<Effect> {
    var call := CallOf(rules, j, leader, true);
    [call, RemoteSynced(leader.id, call.record), DnsVerified(call.record, leader.ip)]
  }

  // Calls in order until one succeeds, whose record is then synced and verified.
  ghost predicate MakesCalls(run: DnsRun, rules: seq<Rule>, calls: seq<nat>, leader: Host, env: Env) {
    var k := CallsBefore(calls, env);
    && run.trace == FailedCalls(rules, calls[..k], leader) +
         (if k == |calls| then [] else SuccessfulCall(rules, calls[k], leader))
    && run.matched == (k < |calls| && env.resolves)
  }

  lemma CallSucceeds(run: DnsRun, rules: seq<Rule>, j: nat, rest: seq<nat>, leader: Host, env: Env)
    requires env.dnsOk(j) && run.trace == SuccessfulCall(rules, j, leader) && run.matched == env.resolves
    ensures MakesCalls(run, rules, [j] + rest, leader, env)
  {
    hide SuccessfulCall;
    assert FailedCalls(rules, ([j] + rest)[..0], leader) == [];
    assert [] + run.trace == run.trace;
  }

  lemma CallFails(run: DnsRun, after: DnsRun, rules: seq<Rule>, j: nat, rest: seq<nat>, leader: Host, env: Env)
    requires !env.dnsOk(j) && MakesCalls(after, rules, rest, leader, env)
    requires run.trace == [CallOf(rules, j, leader, false)] + after.trace && run.matched == after.matched
    ensures MakesCalls(run, rules, [j] + rest, leader, env)
  {
    hide SuccessfulCall, CallOf;
    var calls, k := [j] + rest, CallsBefore(rest, env);
    assert calls[1..] == rest && calls[..k + 1] == [j] + rest[..k];
    assert FailedCalls(rules, calls[..k + 1], leader) ==
      [CallOf(rules, j, leader, false)] + FailedCalls(rules, rest[..k], leader);
  }

  lemma RuleDnsStep(rules: seq<Rule>, i: nat, leader: Host, env: Env)
    requires i < |rules|
    ensures
      var run, after := RuleDns(rules, i, leader, env), RuleDns(rules, i + 1, leader, env);
      var rest := Callable(rules, i + 1, leader.pool);
      if !(RuleApplies(rules[i], leader.pool) && RuleHasCreds(rules[i])) then
        Callable(rules, i, leader.pool) == rest && run.trace == after.trace && run.matched == after.matched
      else
        && Callable(rules, i, leader.pool) == [i] + rest
        && if env.dnsOk(i) then run.trace == SuccessfulCall(rules, i, leader) && run.matched == env.resolves
           else run.trace == [CallOf(rules, i, leader, false)] + after.trace && run.matched == after.matched
  {
    hide RuleApplies, RuleHasCreds, TrimSpace;
  }

  lemma {:induction false} RuleDnsEnabledBy(rules: seq<Rule>, i: nat, leader: Host, env: Env)
    ensures RuleDns(rules, i, leader, env).enabled <==>
      exists j :: i <= j < |rules| && RuleApplies(rules[j], leader.pool)
    decreases |rules| - i
  {
    hide RuleApplies, RuleHasCreds;
    if i < |rules| {
      RuleDnsEnabledBy(rules, i + 1, leader, env);
    }
  }

  // The poller calls for the callable rules in order until one call succeeds,
  // syncs and verifies that rule's record, and looks at no rule after it. It
  // leaves the global record alone exactly when some rule applies, callable or not.
  lemma {:induction false} RuleDnsCalls(rules: seq<Rule>, i: nat, leader: Host, env: Env)
    ensures MakesCalls(RuleDns(rules, i, leader, env), rules, Callable(rules, i, leader.pool), leader, env)
    ensures RuleDns(rules, i, leader, env).enabled <==>
      exists j :: i <= j < |rules| && RuleApplies(rules[j], leader.pool)
    decreases |rules| - i
  {
    RuleDnsEnabledBy(rules, i, leader, env);
    if i >= |rules| {
      assert RuleDns(rules, i, leader, env).trace == [] + [];
    } else {
      hide *;
      RuleDnsCalls(rules, i + 1, leader, env);
      RuleDnsStep(rules, i, leader, env);
      var run, after := RuleDns(rules, i, leader, env), RuleDns(rules, i + 1, leader, env);
      var rest := Callable(rules, i + 1, leader.pool);
      if !(RuleApplies(rules[i], leader.pool) && RuleHasCreds(rules[i])) {
        SameCalls(run, after, rules, rest, leader, env);
      } else if env.dnsOk(i) {
        CallSucceeds(run, rules, i, rest, leader, env);
      } else {
        CallFails(run, after, rules, i, rest, leader, env);
      }
    }
  }

  lemma SameCalls(run: DnsRun, after: DnsRun, rules: seq<Rule>, calls: seq<nat>, leader: Host, env: Env)
    requires run.trace == after.trace && run.matched == after.matched && MakesCalls(after, rules, calls, leader, env)
    ensures MakesCalls(run, rules, calls, leader, env)
  {
  }
}
