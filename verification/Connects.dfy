// The connect commands of a cycle: whose they are, how they end, and what
// becomes of their hosts.
module Connects {
  import opened Text
  import opened Models
  import opened Elections
  import opened Cycles
  import opened CheckPhase
  import opened Failover
  import opened CycleTheorems

  datatype Connect = Connect(host: nat, exitCode: int)

  // The connect commands of a trace, in order.
  function ConnectsOf(t: seq<Effect>): seq<Connect> {
    if |t| == 0 then []
    else (if t[0].Connected? then [Connect(t[0].host, t[0].exitCode)] else []) + ConnectsOf(t[1..])
  }

  function FailedBy(e: Effect): Option<nat> {
    if e.Connected? && e.exitCode != 0 then Some(e.host) else None
  }

  function SucceededBy(e: Effect): Option<nat> {
    if e.Connected? && e.exitCode == 0 then Some(e.host) else None
  }

  lemma {:induction false} ConnectsConcat(t: seq<Effect>, u: seq<Effect>)
    ensures ConnectsOf(t + u) == ConnectsOf(t) + ConnectsOf(u)
  {
    if |t| == 0 {
      assert t + u == u;
    } else {
      assert (t + u)[0] == t[0] && (t + u)[1..] == t[1..] + u;
      ConnectsConcat(t[1..], u);
      var first := if t[0].Connected? then [Connect(t[0].host, t[0].exitCode)] else [];
      assert ConnectsOf(t) == first + ConnectsOf(t[1..]);
      assert ConnectsOf(t + u) == first + ConnectsOf(t[1..] + u);
    }
  }

  lemma {:induction false} NoConnects(t: seq<Effect>)
    requires forall e :: e in t ==> !e.Connected?
    ensures ConnectsOf(t) == []
  {
    if |t| > 0 {
      assert t[0] in t && forall e :: e in t[1..] ==> e in t;
      NoConnects(t[1..]);
    }
  }

  // The command of one Ready host is run on this attempt; a blank one is not run
  // and counts as a success.
  ghost predicate IsConnectOf(c: Connect, hosts: seq<Host>, env: Env, attempt: nat) {
    exists h :: h in hosts && h.state == Ready && h.id == c.host
      && c.exitCode == if TrimSpace(h.preCommand) == "" then 0 else env.connectExit(attempt)
  }

  // Each attempt's command ends as it does from outside; exactly the hosts whose
  // command failed are killed for it, and exactly the one whose did not is stored.
  ghost predicate ConnectsDecide(t: seq<Effect>, hosts: seq<Host>, env: Env, attempt: nat) {
    var connects := ConnectsOf(t);
    && (forall n :: 0 <= n < |connects| ==> IsConnectOf(connects[n], hosts, env, attempt + n))
    && Select(t, KilledByConnect) == Select(t, FailedBy)
    && Select(t, StoredBy) == Select(t, SucceededBy)
  }

  lemma QuietDecides(t: seq<Effect>, hosts: seq<Host>, env: Env, attempt: nat)
    requires forall e :: e in t ==> IsEarly(e)
    ensures ConnectsDecide(t, hosts, env, attempt) && ConnectsOf(t) == []
  {
    hide Select;
    NoConnects(t);
    SelectNothing(t, KilledByConnect);
    SelectNothing(t, FailedBy);
    SelectNothing(t, StoredBy);
    SelectNothing(t, SucceededBy);
  }

  lemma AttemptConnects(db: Db, open: bool, cur: nat, reach: set<nat>, env: Env, attempt: nat)
    requires ReadyReachable(db.hosts, reach) && ElectionOf(db.hosts, cur, env.tie(attempt)).changed
    ensures
      var t := AttemptOf(db, open, cur, reach, env, attempt).trace;
      ConnectsDecide(t, db.hosts, env, attempt) && |ConnectsOf(t)| == 1
  {
    hide *;
    var e, a := ElectionOf(db.hosts, cur, env.tie(attempt)), AttemptOf(db, open, cur, reach, env, attempt);
    var l := e.leader.value;
    AttemptShape(db, open, cur, reach, env, attempt);
    AttemptSelects(db, open, cur, reach, env, attempt);
    DnsKinds(db, l, env);
    OneConnect(e, reach, env, attempt, DnsOf(db, l, env), a.over);
    OneDecides(a.trace, db.hosts, env, attempt, l, a.over);
  }

  lemma OneConnect(e: ElectionResult, reach: set<nat>, env: Env, attempt: nat, dns: DnsRun, over: bool)
    requires e.leader.Some? && forall x :: x in dns.trace ==> IsDns(x)
    ensures
      var l, exitCode := e.leader.value, ConnectExit(e.leader.value, env, attempt);
      var tail := if over then dns.trace + CommitEffects(l, dns) else [];
      var t := Opening(e, reach) + OwnEffects(l, env, attempt) + tail;
      && ConnectsOf(t) == [Connect(l.id, exitCode)]
      && Select(t, FailedBy) == (if exitCode != 0 then [l.id] else [])
      && Select(t, SucceededBy) == if exitCode == 0 then [l.id] else []
  {
    hide *;
    var l, opening := e.leader.value, Opening(e, reach);
    var own := OwnEffects(l, env, attempt);
    var tail := if over then dns.trace + CommitEffects(l, dns) else [];
    OpeningTouches(e, reach);
    OwnIs(l, env, attempt);
    CommitConnectsNone(l, dns);
    var rest := own[1..] + tail;
    assert own == [own[0]] + own[1..];
    ConnectBetween(opening, own[0], rest);
    assert opening + [own[0]] + rest == opening + own + tail;
  }

  lemma OwnIs(l: Host, env: Env, attempt: nat)
    ensures
      var own := OwnEffects(l, env, attempt);
      && |own| > 0 && own[0] == Connected(l.id, ConnectExit(l, env, attempt))
      && forall x :: x in own[1..] ==> !x.Connected?
  {
    hide ConnectExit;
  }

  lemma CommitConnectsNone(l: Host, dns: DnsRun)
    requires forall x :: x in dns.trace ==> IsDns(x)
    ensures forall x :: x in dns.trace + CommitEffects(l, dns) ==> !x.Connected?
  {
  }

  // A trace with one connect command.
  lemma ConnectBetween(before: seq<Effect>, e: Effect, after: seq<Effect>)
    requires e.Connected? && forall x :: x in before || x in after ==> !x.Connected?
    ensures
      var t := before + [e] + after;
      && ConnectsOf(t) == [Connect(e.host, e.exitCode)]
      && Select(t, FailedBy) == (if e.exitCode != 0 then [e.host] else [])
      && Select(t, SucceededBy) == if e.exitCode == 0 then [e.host] else []
  {
    hide ConnectsOf, Select;
    NoConnects(before);
    NoConnects(after);
    OneConnected(e);
    ConnectsConcat(before, [e]);
    ConnectsConcat(before + [e], after);
    SelectBetween(before, e, after, FailedBy);
    SelectBetween(before, e, after, SucceededBy);
  }

  lemma SelectBetween(before: seq<Effect>, e: Effect, after: seq<Effect>, f: Effect -> Option<nat>)
    requires forall x :: x in before || x in after ==> f(x).None?
    ensures Select(before + [e] + after, f) == if f(e).Some? then [f(e).value] else []
  {
    hide Select;
    SelectNothing(before, f);
    SelectNothing(after, f);
    SelectOne(e, f);
    SelectConcat(before, [e], f);
    SelectConcat(before + [e], after, f);
  }

  lemma OneConnected(e: Effect)
    requires e.Connected?
    ensures ConnectsOf([e]) == [Connect(e.host, e.exitCode)]
  {
    assert [e][1..] == [];
  }

  lemma OneDecides(t: seq<Effect>, hosts: seq<Host>, env: Env, attempt: nat, l: Host, over: bool)
    requires ConnectsOf(t) == [Connect(l.id, ConnectExit(l, env, attempt))] && IsBestReady(l, hosts)
    requires Select(t, FailedBy) == (if ConnectExit(l, env, attempt) != 0 then [l.id] else [])
    requires Select(t, SucceededBy) == if ConnectExit(l, env, attempt) == 0 then [l.id] else []
    requires over == (ConnectExit(l, env, attempt) == 0)
    requires ReportOf(t) == if over then Report([l.id], [], [l.id]) else Report([l.id], [l.id], [])
    ensures ConnectsDecide(t, hosts, env, attempt)
  {
    hide Select, TrimSpace, ConnectsOf;
    assert IsConnectOf(Connect(l.id, ConnectExit(l, env, attempt)), hosts, env, attempt);
  }

  // The hosts still Ready after a failed attempt are as they were before it.
  lemma DecidesAfter(t: seq<Effect>, u: seq<Effect>, before: seq<Host>, after: seq<Host>, tried: nat, env: Env,
        attempt: nat)
    requires ConnectsDecide(t, before, env, attempt) && |ConnectsOf(t)| == 1
    requires FailedTable(before, after, tried) && ConnectsDecide(u, after, env, attempt + 1)
    ensures ConnectsDecide(t + u, before, env, attempt)
  {
    hide Select, ConnectsOf, TrimSpace;
    ConnectsConcat(t, u);
    SelectConcat(t, u, KilledByConnect);
    SelectConcat(t, u, FailedBy);
    SelectConcat(t, u, StoredBy);
    SelectConcat(t, u, SucceededBy);
    var connects := ConnectsOf(u);
    forall n | 0 <= n < |connects| ensures IsConnectOf(connects[n], before, env, attempt + 1 + n) {
      ConnectBefore(connects[n], before, after, tried, env, attempt + 1 + n);
    }
  }

  lemma ConnectBefore(c: Connect, before: seq<Host>, after: seq<Host>, tried: nat, env: Env, attempt: nat)
    requires FailedTable(before, after, tried) && IsConnectOf(c, after, env, attempt)
    ensures IsConnectOf(c, before, env, attempt)
  {
    hide TrimSpace;
    var h :| h in after && h.state == Ready && h.id == c.host
      && c.exitCode == if TrimSpace(h.preCommand) == "" then 0 else env.connectExit(attempt);
    var i :| 0 <= i < |after| && after[i] == h;
    assert FailedRow(before[i], h, tried);
    assert before[i] in before && before[i] == h;
  }

  lemma {:induction false} LoopConnects(db: Db, open: bool, cur: nat, reach: set<nat>, env: Env, attempt: nat)
    requires ValidIds(db) && ReadyReachable(db.hosts, reach)
    ensures ConnectsDecide(ElectLoop(db, open, cur, reach, env, attempt).trace, db.hosts, env, attempt)
    decreases MAX_ELECT_RETRIES - attempt
  {
    hide *;
    if attempt >= MAX_ELECT_RETRIES || !ElectionOf(db.hosts, cur, env.tie(attempt)).changed {
      IdleIsEarly(db, open, cur, reach, env, attempt);
      QuietDecides(ElectLoop(db, open, cur, reach, env, attempt).trace, db.hosts, env, attempt);
    } else {
      AttemptConnects(db, open, cur, reach, env, attempt);
      if AttemptOf(db, open, cur, reach, env, attempt).over {
        OverLoop(db, open, cur, reach, env, attempt);
      } else {
        var tried, a, after := AttemptFails(db, open, cur, reach, env, attempt);
        LoopConnects(after, a.open, 0, reach, env, attempt + 1);
        var u := ElectLoop(after, a.open, 0, reach, env, attempt + 1).trace;
        DecidesAfter(a.trace, u, db.hosts, after.hosts, tried.id, env, attempt);
      }
    }
  }

  // The n-th connect command of a cycle is that of a host Ready after the checks,
  // with the n-th exit code from outside unless it is blank. Exactly the hosts
  // whose command failed are killed for it, in that order, and exactly the one
  // whose command succeeded, if there is one, is stored as the leader.
  lemma CycleConnects(w: World, env: Env)
    requires ValidIds(w.db)
    ensures
      var t := CycleTrace(w, env);
      var connects := ConnectsOf(t);
      && (forall n :: 0 <= n < |connects| ==> IsConnectOf(connects[n], CheckedDb(w, env).hosts, env, n))
      && Select(t, KilledByConnect) == Select(t, FailedBy)
      && Select(t, StoredBy) == Select(t, SucceededBy)
  {
    hide *;
    CycleParts(w, env);
    EarlyIsEarly(w, env);
    CheckedRows(w, env);
    var t, u, hosts := EarlyTrace(w, env), CycleLoop(w, env).trace, CheckedDb(w, env).hosts;
    if FirstElection(w, env).changed {
      LoopIsElectLoop(w, env);
      AllReadyReachable(w, env);
      LoopConnects(CheckedDb(w, env), false, CheckedDb(w, env).leader,
                   ReachableIds(w.db.hosts, w.streaks, env), env, 0);
    } else {
      IdleLoop(w, env);
      QuietDecides(u, hosts, env, 0);
    }
    QuietDecides(t, hosts, env, 0);
    QuietFirst(t, u, hosts, env);
  }

  lemma QuietFirst(t: seq<Effect>, u: seq<Effect>, hosts: seq<Host>, env: Env)
    requires ConnectsDecide(t, hosts, env, 0) && ConnectsOf(t) == [] && ConnectsDecide(u, hosts, env, 0)
    ensures
      var connects := ConnectsOf(t + u);
      && (forall n :: 0 <= n < |connects| ==> IsConnectOf(connects[n], hosts, env, n))
      && Select(t + u, KilledByConnect) == Select(t + u, FailedBy)
      && Select(t + u, StoredBy) == Select(t + u, SucceededBy)
  {
    hide Select, ConnectsOf, IsConnectOf;
    ConnectsConcat(t, u);
    SelectConcat(t, u, KilledByConnect);
    SelectConcat(t, u, FailedBy);
    SelectConcat(t, u, StoredBy);
    SelectConcat(t, u, SucceededBy);
    assert [] + ConnectsOf(u) == ConnectsOf(u);
  }
}
