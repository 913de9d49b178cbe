// Which DNS calls and which ddns notification a cycle makes for the leader it
// stores, told by the fields of the settings.
module CommitDns {
  import opened Text
  import opened Models
  import opened Cycles
  import opened CheckPhase
  import opened Failover
  import opened CycleTheorems
  import opened TraceSafety
  import opened DdnsNames

  // The DNS calls of a trace, in order.
  function DnsEffects(t: seq<Effect>): seq<Effect> {
    if |t| == 0 then [] else (if IsDns(t[0]) then [t[0]] else []) + DnsEffects(t[1..])
  }

  lemma {:induction false} DnsEffectsConcat(t: seq<Effect>, u: seq<Effect>)
    ensures DnsEffects(t + u) == DnsEffects(t) + DnsEffects(u)
  {
    if |t| == 0 {
      assert t + u == u;
    } else {
      hide IsDns;
      assert (t + u)[0] == t[0] && (t + u)[1..] == t[1..] + u;
      DnsEffectsConcat(t[1..], u);
      var first := if IsDns(t[0]) then [t[0]] else [];
      assert DnsEffects(t) == first + DnsEffects(t[1..]);
      assert DnsEffects(t + u) == first + DnsEffects(t[1..] + u);
    }
  }

  lemma {:induction false} DnsEffectsIn(t: seq<Effect>)
    ensures forall e :: e in DnsEffects(t) <==> e in t && IsDns(e)
    ensures (forall e :: e in t ==> IsDns(e)) ==> DnsEffects(t) == t
    ensures (forall e :: e in t ==> !IsDns(e)) ==> DnsEffects(t) == []
  {
    if |t| > 0 {
      DnsEffectsIn(t[1..]);
      assert t == [t[0]] + t[1..] && t[0] in t;
      assert forall e :: e in t[1..] ==> e in t;
    }
  }

  // What a trace says of a run of DNS calls: the calls, and how they went.
  ghost predicate Reports(t: seq<Effect>, dns: DnsRun) {
    && DnsEffects(t) == dns.trace
    && (Notified(DdnsMatchNotice) in t <==> dns.enabled && dns.matched)
    && (Notified(DdnsMismatchNotice) in t <==> dns.enabled && !dns.matched)
  }

  lemma QuietReports(t: seq<Effect>)
    requires forall e :: e in t ==> IsBeforeCommit(e)
    ensures Reports(t, DnsRun([], false, false))
  {
    DnsEffectsIn(t);
  }

  lemma EndingReports(db: Db, l: Host, env: Env)
    ensures Reports(Ending(db, l, env), DnsOf(db, l, env))
  {
    var dns := DnsOf(db, l, env);
    DnsKinds(db, l, env);
    hide DnsOf, DnsEffects;
    var commit := CommitEffects(l, dns);
    DnsEffectsIn([Connected(l.id, 0)]);
    DnsEffectsIn(dns.trace);
    DnsEffectsIn(commit);
    DnsEffectsConcat([Connected(l.id, 0)], dns.trace);
    DnsEffectsConcat([Connected(l.id, 0)] + dns.trace, commit);
    assert [] + dns.trace + [] == dns.trace;
  }

  lemma QuietFront(t: seq<Effect>, u: seq<Effect>, dns: DnsRun)
    requires (forall e :: e in t ==> IsBeforeCommit(e)) && Reports(u, dns)
    ensures Reports(t + u, dns)
  {
    hide DnsEffects;
    DnsEffectsIn(t);
    DnsEffectsConcat(t, u);
    assert [] + dns.trace == dns.trace;
  }

  // The whole cycle reports the run of calls for the leader it stores, and no
  // other.
  lemma CycleReports(w: World, env: Env, l: Host)
    requires ValidIds(w.db)
    ensures
      var t := CycleTrace(w, env);
      && (l in CheckedDb(w, env).hosts && LeaderStored(l.id) in t ==> Reports(t, DnsOf(w.db, l, env)))
      && ((forall e :: e in t ==> !e.LeaderStored?) ==> Reports(t, DnsRun([], false, false)))
  {
    hide *;
    var t, db := CycleTrace(w, env), CheckedDb(w, env);
    var pre, committed := CycleShape(w, env);
    CheckedRows(w, env);
    ShapeReports(t, db, env, pre, committed);
    StoredIsCommitted(t, db, env, pre, committed, l);
    SameSettingsSameRun(w.db, db, l, env);
  }

  lemma ShapeReports(t: seq<Effect>, db: Db, env: Env, pre: seq<Effect>, l: Option<Host>)
    requires Shaped(t, db, env, pre, l)
    ensures Reports(t, if l.Some? then DnsOf(db, l.value, env) else DnsRun([], false, false))
  {
    hide Ending, DnsOf, IsBeforeCommit, Reports;
    if l.Some? {
      EndingReports(db, l.value, env);
      QuietFront(pre, Ending(db, l.value, env), DnsOf(db, l.value, env));
    } else {
      QuietReports(pre);
    }
  }

  lemma StoredIsCommitted(t: seq<Effect>, db: Db, env: Env, pre: seq<Effect>, l: Option<Host>, h: Host)
    requires Shaped(t, db, env, pre, l) && ValidIds(db)
    ensures l.Some? ==> LeaderStored(l.value.id) in t
    ensures h in db.hosts && LeaderStored(h.id) in t ==> l == Some(h)
  {
    hide DnsOf;
    if l.Some? {
      DnsKinds(db, l.value, env);
      assert LeaderStored(l.value.id) in CommitEffects(l.value, DnsOf(db, l.value, env));
    }
  }

  lemma SameSettingsSameRun(db: Db, after: Db, l: Host, env: Env)
    requires after.rules == db.rules && after.global == db.global
    ensures DnsOf(after, l, env) == DnsOf(db, l, env)
  {
  }

  lemma GlobalRunIs(db: Db, l: Host, env: Env)
    requires forall r :: r in db.rules ==>
      !(r.enabled && TrimSpace(r.pool) == TrimSpace(l.pool) && TrimSpace(r.recordName) != "")
    ensures
      var record, ok := TrimSpace(db.global.record), env.dnsOk(|db.rules|);
      var byKey := TrimSpace(db.global.email) != "" && TrimSpace(db.global.apiKey) != "" &&
        TrimSpace(db.global.zoneName) != "";
      var byToken := TrimSpace(db.global.apiToken) != "" && TrimSpace(db.global.zoneId) != "";
      var updated := if byKey || byToken then [DnsUpdated(record, l.ip, ok)] else [];
      var synced := if byKey then [RemoteSynced(l.id, record)] else [];
      DnsOf(db, l, env) ==
        if record == "" then DnsRun([], false, false)
        else DnsRun(updated + synced + [DnsVerified(record, l.ip)], true, env.resolves)
  {
    hide TrimSpace, RuleDns;
    RuleDnsEnabledBy(db.rules, 0, l, env);
  }

  // A cycle that stores l, to whose pool no rule applies, looks up the global
  // record once, last; updates it first exactly if either kind of credentials is
  // there, and tells the host exactly if those of the API key are; a blank record
  // gets no call. The notification says whether the record resolves to l.
  lemma GlobalNameExactly(w: World, env: Env, l: Host)
    requires ValidIds(w.db)
    ensures
      var t, g := CycleTrace(w, env), w.db.global;
      var record, ok := TrimSpace(g.record), env.dnsOk(|w.db.rules|);
      var byKey := TrimSpace(g.email) != "" && TrimSpace(g.apiKey) != "" && TrimSpace(g.zoneName) != "";
      var byToken := TrimSpace(g.apiToken) != "" && TrimSpace(g.zoneId) != "";
      var updated := if byKey || byToken then [DnsUpdated(record, l.ip, ok)] else [];
      var synced := if byKey then [RemoteSynced(l.id, record)] else [];
      && l in CheckedDb(w, env).hosts && LeaderStored(l.id) in t
      && (forall r :: r in w.db.rules ==>
           !(r.enabled && TrimSpace(r.pool) == TrimSpace(l.pool) && TrimSpace(r.recordName) != "")) ==>
        && DnsEffects(t) == (if record == "" then [] else updated + synced + [DnsVerified(record, l.ip)])
        && (DnsVerified(record, l.ip) in t <==> record != "")
        && ((exists answer :: DnsUpdated(record, l.ip, answer) in t) <==> record != "" && (byKey || byToken))
        && (RemoteSynced(l.id, record) in t <==> record != "" && byKey)
        && (Notified(DdnsMatchNotice) in t <==> record != "" && env.resolves)
        && (Notified(DdnsMismatchNotice) in t <==> record != "" && !env.resolves)
  {
    hide *;
    CycleReports(w, env, l);
    var g := w.db.global;
    var byKey := TrimSpace(g.email) != "" && TrimSpace(g.apiKey) != "" && TrimSpace(g.zoneName) != "";
    var byToken := TrimSpace(g.apiToken) != "" && TrimSpace(g.zoneId) != "";
    CallsIn(CycleTrace(w, env), l, TrimSpace(g.record), env.dnsOk(|w.db.rules|), byKey || byToken, byKey);
    if forall r :: r in w.db.rules ==>
      !(r.enabled && TrimSpace(r.pool) == TrimSpace(l.pool) && TrimSpace(r.recordName) != "")
    {
      GlobalRunIs(w.db, l, env);
      ReportIs(CycleTrace(w, env), DnsOf(w.db, l, env));
    }
  }

  lemma ReportIs(t: seq<Effect>, dns: DnsRun)
    ensures Reports(t, dns) ==>
      && DnsEffects(t) == dns.trace
      && (Notified(DdnsMatchNotice) in t <==> dns.enabled && dns.matched)
      && (Notified(DdnsMismatchNotice) in t <==> dns.enabled && !dns.matched)
  {
  }

  lemma CallsIn(t: seq<Effect>, l: Host, record: string, ok: bool, update: bool, sync: bool)
    ensures
      var updated := if update then [DnsUpdated(record, l.ip, ok)] else [];
      var synced := if sync then [RemoteSynced(l.id, record)] else [];
      DnsEffects(t) == updated + synced + [DnsVerified(record, l.ip)] ==>
        && DnsVerified(record, l.ip) in t
        && ((exists answer :: DnsUpdated(record, l.ip, answer) in t) <==> update)
        && (RemoteSynced(l.id, record) in t <==> sync)
    ensures DnsEffects(t) == [] ==> forall e :: e in t ==> !e.DnsUpdated? && !e.RemoteSynced? && !e.DnsVerified?
  {
    hide DnsEffects;
    DnsEffectsIn(t);
  }

  // Which rules are called

  ghost predicate Ascending(calls: seq<nat>) {
    forall m, n :: 0 <= m < n < |calls| ==> calls[m] < calls[n]
  }

  lemma {:induction false} AscendingUnique(a: seq<nat>, b: seq<nat>)
    requires Ascending(a) && Ascending(b) && forall j :: j in a <==> j in b
    ensures a == b
  {
    assert |a| > 0 ==> a[0] in b;
    assert |b| > 0 ==> b[0] in a;
    if |a| > 0 && |b| > 0 {
      var x, y := a[|a| - 1], b[|b| - 1];
      assert x in a && y in b;
      assert x == y;
      var before, before' := a[..|a| - 1], b[..|b| - 1];
      forall j ensures j in before <==> j in before' {
        assert j in before <==> j in a && j != x;
        assert j in before' <==> j in b && j != y;
      }
      AscendingUnique(before, before');
    }
  }

  lemma CallsBeforeIs(calls: seq<nat>, env: Env, k: nat)
    requires SucceedsAfter(k, calls, env)
    ensures k <= |calls| && CallsBefore(calls, env) == k
  {
  }

  // Once the rules to call and the first call to succeed are known.
  lemma CallsMade(run: DnsRun, rules: seq<Rule>, calls: seq<nat>, l: Host, env: Env, k: nat)
    requires MakesCalls(run, rules, calls, l, env) && k == CallsBefore(calls, env)
    requires forall m :: 0 <= m < |calls| ==> calls[m] < |rules|
    ensures |run.trace| == k + if k < |calls| then 3 else 0
    ensures forall m :: 0 <= m < k ==>
      run.trace[m] == DnsUpdated(TrimSpace(rules[calls[m]].recordName), l.ip, false)
    ensures k < |calls| ==>
      var record := TrimSpace(rules[calls[k]].recordName);
      run.trace[k..] == [DnsUpdated(record, l.ip, true), RemoteSynced(l.id, record), DnsVerified(record, l.ip)]
    ensures run.matched <==> k < |calls| && env.resolves
  {
    hide TrimSpace;
  }

  // The rules to call for a leader of this pool, in order: those enabled for it
  // that name a record and hold either kind of credentials.
  ghost predicate CallOrder(calls: seq<nat>, rules: seq<Rule>, pool: string) {
    && Ascending(calls)
    && forall j: nat :: j in calls <==>
         && j < |rules|
         && rules[j].enabled && TrimSpace(rules[j].pool) == TrimSpace(pool) && TrimSpace(rules[j].recordName) != ""
         && ((TrimSpace(rules[j].cfEmail) != "" && TrimSpace(rules[j].cfApiKey) != ""
               && TrimSpace(rules[j].cfZoneName) != "")
             || (TrimSpace(rules[j].cfApiToken) != "" && TrimSpace(rules[j].cfZoneId) != ""))
  }

  // How far the calls go: k of them fail, and one more, if there is one, succeeds.
  ghost predicate SucceedsAfter(k: nat, calls: seq<nat>, env: Env) {
    && k <= |calls| && (forall m :: 0 <= m < k ==> !env.dnsOk(calls[m]))
    && (k < |calls| ==> env.dnsOk(calls[k]))
  }

  lemma CallableIs(rules: seq<Rule>, calls: seq<nat>, pool: string)
    requires CallOrder(calls, rules, pool)
    ensures Callable(rules, 0, pool) == calls
    ensures forall m :: 0 <= m < |calls| ==> calls[m] < |rules|
  {
    hide TrimSpace;
    CallableAre(rules, 0, pool);
    AscendingUnique(Callable(rules, 0, pool), calls);
    assert forall m :: 0 <= m < |calls| ==> calls[m] in calls;
  }

  lemma RunByRules(db: Db, l: Host, env: Env)
    requires exists r ::
      r in db.rules && r.enabled && TrimSpace(r.pool) == TrimSpace(l.pool) && TrimSpace(r.recordName) != ""
    ensures DnsOf(db, l, env).enabled
    ensures MakesCalls(DnsOf(db, l, env), db.rules, Callable(db.rules, 0, l.pool), l, env)
  {
    hide TrimSpace, RuleDns, MakesCalls, RuleHasCreds;
    var r :| r in db.rules && r.enabled && TrimSpace(r.pool) == TrimSpace(l.pool) && TrimSpace(r.recordName) != "";
    var j :| 0 <= j < |db.rules| && db.rules[j] == r;
    assert RuleApplies(db.rules[j], l.pool);
    RuleDnsCalls(db.rules, 0, l, env);
  }

  // A cycle that stores l, to whose pool some rule applies, calls for the
  // applicable rules with credentials in their order up to the first call that
  // succeeds, tells the host of that rule's record and looks it up; it makes no
  // other call, none for the global record on its own account. The notification
  // says whether a call succeeded and its record resolves to l.
  lemma RuleNamesExactly(w: World, env: Env, l: Host, calls: seq<nat>, k: nat)
    requires ValidIds(w.db) && CallOrder(calls, w.db.rules, l.pool) && SucceedsAfter(k, calls, env)
    ensures forall m :: 0 <= m < |calls| ==> calls[m] < |w.db.rules|
    ensures
      var t, rules := CycleTrace(w, env), w.db.rules;
      && l in CheckedDb(w, env).hosts && LeaderStored(l.id) in t
      && (exists r ::
           r in rules && r.enabled && TrimSpace(r.pool) == TrimSpace(l.pool) && TrimSpace(r.recordName) != "") ==>
        && |DnsEffects(t)| == k + (if k < |calls| then 3 else 0)
        && (forall m :: 0 <= m < k ==>
             DnsEffects(t)[m] == DnsUpdated(TrimSpace(rules[calls[m]].recordName), l.ip, false))
        && (k < |calls| ==>
             var record := TrimSpace(rules[calls[k]].recordName);
             DnsEffects(t)[k..] ==
               [DnsUpdated(record, l.ip, true), RemoteSynced(l.id, record), DnsVerified(record, l.ip)])
        && (Notified(DdnsMatchNotice) in t <==> k < |calls| && env.resolves)
        && (Notified(DdnsMismatchNotice) in t <==> !(k < |calls| && env.resolves))
  {
    hide *;
    var t, rules := CycleTrace(w, env), w.db.rules;
    CallableIs(rules, calls, l.pool);
    if l in CheckedDb(w, env).hosts && LeaderStored(l.id) in t
      && exists r ::
           r in rules && r.enabled && TrimSpace(r.pool) == TrimSpace(l.pool) && TrimSpace(r.recordName) != ""
    {
      CycleReports(w, env, l);
      RunByRules(w.db, l, env);
      CallsBeforeIs(calls, env, k);
      CallsMade(DnsOf(w.db, l, env), rules, calls, l, env, k);
      ReportIs(t, DnsOf(w.db, l, env));
    }
  }

  // A cycle that stores no one makes no DNS call and sends no ddns notification.
  lemma NobodyStoredNoDns(w: World, env: Env)
    requires ValidIds(w.db)
    ensures
      var t := CycleTrace(w, env);
      (forall e :: e in t ==> !e.LeaderStored?) ==>
        && DnsEffects(t) == []
        && Notified(DdnsMatchNotice) !in t && Notified(DdnsMismatchNotice) !in t
  {
    hide *;
    CycleReports(w, env, NO_HOST);
    ReportIs(CycleTrace(w, env), DnsRun([], false, false));
  }
}
