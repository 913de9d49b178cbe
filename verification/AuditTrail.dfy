// What a cycle puts on record about its elections: the leader_changed audit
// events and notifications, against what it really did.
module AuditTrail {
  import opened Models
  import opened Elections
  import opened Circuits
  import opened Cycles
  import opened CheckPhase
  import opened Failover
  import opened CycleTheorems

  function ElectedTo(e: Effect): Option<nat> {
    if e.LeaderElected? then Some(e.next) else None
  }

  function ElectedFrom(e: Effect): Option<nat> {
    if e.LeaderElected? then Some(e.prev) else None
  }

  // The notification that a leader was committed; which one, it does not say here.
  function Announced(e: Effect): Option<nat> {
    if e == Notified(LeaderChangedNotice) then Some(0) else None
  }

  function PreviousId(hosts: seq<Host>, cur: nat): nat {
    if FindHost(hosts, cur).Some? then cur else 0
  }

  // The first election leaves the stored leader, if it has a row; each later one
  // leaves nobody.
  ghost predicate LeavesOnce(froms: seq<nat>, first: nat) {
    forall i :: 0 <= i < |froms| ==> froms[i] == if i == 0 then first else 0
  }

  // The audit log names the hosts tried, in order, and one notification goes
  // out for every host committed.
  ghost predicate OnRecord(t: seq<Effect>, first: nat) {
    && Select(t, ElectedTo) == Select(t, TriedBy)
    && |Select(t, ElectedFrom)| == |Select(t, ElectedTo)|
    && LeavesOnce(Select(t, ElectedFrom), first)
    && |Select(t, Announced)| == |Select(t, StoredBy)|
  }

  lemma SelectFirst(x: Effect, t: seq<Effect>, f: Effect -> Option<nat>)
    requires f(x).Some? && forall y :: y in t ==> f(y).None?
    ensures Select([x] + t, f) == [f(x).value]
  {
    hide Select;
    SelectOne(x, f);
    SelectNothing(t, f);
    SelectConcat([x], t, f);
  }

  lemma NothingOnRecord(t: seq<Effect>, first: nat)
    requires forall e :: e in t ==> IsEarly(e)
    ensures OnRecord(t, first)
    ensures Select(t, ElectedTo) == [] && Select(t, ElectedFrom) == [] && Select(t, TriedBy) == []
  {
    hide Select;
    SelectNothing(t, ElectedTo);
    SelectNothing(t, ElectedFrom);
    SelectNothing(t, TriedBy);
    SelectNothing(t, StoredBy);
    SelectNothing(t, Announced);
  }

  lemma RecordConcat(t: seq<Effect>, u: seq<Effect>, first: nat)
    requires OnRecord(t, first) && OnRecord(u, if |Select(t, ElectedFrom)| == 0 then first else 0)
    ensures OnRecord(t + u, first)
  {
    hide Select;
    SelectConcat(t, u, ElectedTo);
    SelectConcat(t, u, ElectedFrom);
    SelectConcat(t, u, TriedBy);
    SelectConcat(t, u, StoredBy);
    SelectConcat(t, u, Announced);
  }

  lemma OpeningOnRecord(e: ElectionResult, reach: set<nat>)
    requires e.leader.Some? && e.changed
    ensures
      var t := Opening(e, reach);
      && Select(t, ElectedTo) == [e.leader.value.id]
      && Select(t, ElectedFrom) == [if e.prevLeader.Some? then e.prevLeader.value.id else 0]
      && Select(t, TriedBy) == [] && Select(t, StoredBy) == [] && Select(t, Announced) == []
  {
    hide Select;
    var first := ElectionEffects(e)[0];
    assert ElectionEffects(e) == [first];
    SelectFirst(first, DisconnectEffects(e, reach), ElectedTo);
    SelectFirst(first, DisconnectEffects(e, reach), ElectedFrom);
    SelectNothing(Opening(e, reach), TriedBy);
    SelectNothing(Opening(e, reach), StoredBy);
    SelectNothing(Opening(e, reach), Announced);
  }

  lemma OwnOnRecord(l: Host, env: Env, attempt: nat)
    ensures
      var t := OwnEffects(l, env, attempt);
      && Select(t, ElectedTo) == [] && Select(t, ElectedFrom) == [] && Select(t, Announced) == []
      && Select(t, TriedBy) == [l.id] && Select(t, StoredBy) == []
  {
    SelectOwn(l, env, attempt);
    hide Select, ConnectExit;
    SelectNothing(OwnEffects(l, env, attempt), ElectedTo);
    SelectNothing(OwnEffects(l, env, attempt), ElectedFrom);
    SelectNothing(OwnEffects(l, env, attempt), Announced);
  }

  lemma CommitOnRecord(l: Host, dns: DnsRun)
    requires forall x :: x in dns.trace ==> IsDns(x)
    ensures
      var t := dns.trace + CommitEffects(l, dns);
      && Select(t, ElectedTo) == [] && Select(t, ElectedFrom) == [] && Select(t, TriedBy) == []
      && |Select(t, Announced)| == 1 && |Select(t, StoredBy)| == 1
  {
    SelectCommit(l, dns);
    hide Select;
    var t, commit := dns.trace + CommitEffects(l, dns), CommitEffects(l, dns);
    SelectNothing(t, ElectedTo);
    SelectNothing(t, ElectedFrom);
    SelectNothing(t, TriedBy);
    SelectNothing(dns.trace, StoredBy);
    SelectConcat(dns.trace, commit, StoredBy);
    SelectNothing(dns.trace + commit[..3], Announced);
    SelectFirst(commit[3], commit[4..], Announced);
    assert t == (dns.trace + commit[..3]) + ([commit[3]] + commit[4..]);
    SelectConcat(dns.trace + commit[..3], [commit[3]] + commit[4..], Announced);
  }

  lemma JoinOnRecord(opening: seq<Effect>, own: seq<Effect>, tail: seq<Effect>, f: Effect -> Option<nat>)
    ensures Select(opening + own + tail, f) == Select(opening, f) + Select(own, f) + Select(tail, f)
  {
    hide Select;
    SelectConcat(opening, own, f);
    SelectConcat(opening + own, tail, f);
  }

  ghost predicate RecordsAs(t: seq<Effect>, opening: seq<Effect>, own: seq<Effect>, tail: seq<Effect>) {
    && t == opening + own + tail
    && Select(t, ElectedTo) == Select(opening, ElectedTo) + Select(own, ElectedTo) + Select(tail, ElectedTo)
    && Select(t, ElectedFrom) == Select(opening, ElectedFrom) + Select(own, ElectedFrom) + Select(tail, ElectedFrom)
    && Select(t, TriedBy) == Select(opening, TriedBy) + Select(own, TriedBy) + Select(tail, TriedBy)
    && Select(t, StoredBy) == Select(opening, StoredBy) + Select(own, StoredBy) + Select(tail, StoredBy)
    && Select(t, Announced) == Select(opening, Announced) + Select(own, Announced) + Select(tail, Announced)
  }

  lemma RecordsByPart(opening: seq<Effect>, own: seq<Effect>, tail: seq<Effect>)
    ensures RecordsAs(opening + own + tail, opening, own, tail)
  {
    hide Select;
    JoinOnRecord(opening, own, tail, ElectedTo);
    JoinOnRecord(opening, own, tail, ElectedFrom);
    JoinOnRecord(opening, own, tail, TriedBy);
    JoinOnRecord(opening, own, tail, StoredBy);
    JoinOnRecord(opening, own, tail, Announced);
  }

  // One attempt that elects someone new.
  lemma AttemptOnRecord(db: Db, open: bool, cur: nat, reach: set<nat>, env: Env, attempt: nat)
    requires ReadyReachable(db.hosts, reach) && ElectionOf(db.hosts, cur, env.tie(attempt)).changed
    ensures OnRecord(AttemptOf(db, open, cur, reach, env, attempt).trace, PreviousId(db.hosts, cur))
    ensures |Select(AttemptOf(db, open, cur, reach, env, attempt).trace, ElectedFrom)| == 1
  {
    hide *;
    AttemptShape(db, open, cur, reach, env, attempt);
    var e := ElectionOf(db.hosts, cur, env.tie(attempt));
    var l := e.leader.value;
    var dns := DnsOf(db, l, env);
    var opening, own := Opening(e, reach), OwnEffects(l, env, attempt);
    var tail := if AttemptOf(db, open, cur, reach, env, attempt).over then dns.trace + CommitEffects(l, dns) else [];
    DnsKinds(db, l, env);
    OpeningOnRecord(e, reach);
    OwnOnRecord(l, env, attempt);
    CommitOnRecord(l, dns);
    EmptyOnRecord();
    RecordsByPart(opening, own, tail);
    PartsOnRecord(opening + own + tail, opening, own, tail, l.id, db.hosts, cur, e.prevLeader);
  }

  lemma EmptyOnRecord()
    ensures Select([], ElectedTo) == [] && Select([], ElectedFrom) == [] && Select([], TriedBy) == []
    ensures Select([], Announced) == [] && Select([], StoredBy) == []
  {
  }

  lemma PartsOnRecord(t: seq<Effect>, opening: seq<Effect>, own: seq<Effect>, tail: seq<Effect>, l: nat,
        hosts: seq<Host>, cur: nat, prevLeader: Option<Host>)
    requires RecordsAs(t, opening, own, tail) && prevLeader == FindHost(hosts, cur)
    requires Select(opening, ElectedTo) == [l] && Select(own, ElectedTo) == [] == Select(tail, ElectedTo)
    requires Select(opening, ElectedFrom) == [if prevLeader.Some? then prevLeader.value.id else 0]
    requires Select(own, ElectedFrom) == [] == Select(tail, ElectedFrom)
    requires Select(opening, TriedBy) == [] == Select(tail, TriedBy) && Select(own, TriedBy) == [l]
    requires Select(opening, StoredBy) == [] == Select(own, StoredBy)
    requires Select(opening, Announced) == [] == Select(own, Announced)
    requires |Select(tail, Announced)| == |Select(tail, StoredBy)|
    ensures OnRecord(t, PreviousId(hosts, cur)) && |Select(t, ElectedFrom)| == 1
  {
    hide Select;
  }

  lemma {:induction false} LoopOnRecord(db: Db, open: bool, cur: nat, reach: set<nat>, env: Env, attempt: nat)
    requires ValidIds(db) && ReadyReachable(db.hosts, reach)
    ensures OnRecord(ElectLoop(db, open, cur, reach, env, attempt).trace, PreviousId(db.hosts, cur))
    decreases MAX_ELECT_RETRIES - attempt
  {
    hide *;
    if attempt >= MAX_ELECT_RETRIES || !ElectionOf(db.hosts, cur, env.tie(attempt)).changed {
      IdleIsEarly(db, open, cur, reach, env, attempt);
      NothingOnRecord(ElectLoop(db, open, cur, reach, env, attempt).trace, PreviousId(db.hosts, cur));
    } else {
      AttemptOnRecord(db, open, cur, reach, env, attempt);
      if AttemptOf(db, open, cur, reach, env, attempt).over {
        OverLoop(db, open, cur, reach, env, attempt);
      } else {
        var tried, a, after := AttemptFails(db, open, cur, reach, env, attempt);
        LoopOnRecord(after, a.open, 0, reach, env, attempt + 1);
        NobodyBefore(after.hosts);
        RecordConcat(a.trace, ElectLoop(after, a.open, 0, reach, env, attempt + 1).trace, PreviousId(db.hosts, cur));
      }
    }
  }

  lemma NobodyBefore(hosts: seq<Host>)
    ensures PreviousId(hosts, 0) == 0
  {
  }

  // In every cycle the leader_changed audit events name, in order, exactly the
  // hosts the cycle tries to connect; the first leaves the stored leader (or 0 if
  // it has no row), the later ones leave 0; and exactly one leader_changed
  // notification is sent for a commit, and none without.
  lemma CycleOnRecord(w: World, env: Env)
    requires ValidIds(w.db)
    ensures OnRecord(CycleTrace(w, env), PreviousId(w.db.hosts, w.db.leader))
  {
    hide *;
    CycleParts(w, env);
    EarlyIsEarly(w, env);
    CheckedRows(w, env);
    SamePrevious(w.db.hosts, CheckedDb(w, env).hosts, w.streaks, env, w.db.leader);
    var t, u, first := EarlyTrace(w, env), CycleLoop(w, env).trace, PreviousId(w.db.hosts, w.db.leader);
    NothingOnRecord(t, first);
    if FirstElection(w, env).changed {
      LoopIsElectLoop(w, env);
      AllReadyReachable(w, env);
      LoopOnRecord(CheckedDb(w, env), false, w.db.leader, ReachableIds(w.db.hosts, w.streaks, env), env, 0);
    } else {
      IdleLoop(w, env);
      NothingOnRecord(u, first);
    }
    RecordConcat(t, u, first);
  }

  lemma SamePrevious(before: seq<Host>, after: seq<Host>, s: Streaks, env: Env, cur: nat)
    requires |after| == |before| && forall i :: 0 <= i < |before| ==> after[i] == CheckedRow(before[i], s, env)
    ensures PreviousId(after, cur) == PreviousId(before, cur)
  {
    hide ResultOf;
    if FindHost(before, cur).Some? {
      var i :| 0 <= i < |before| && before[i] == FindHost(before, cur).value;
      assert after[i] in after && after[i].id == cur;
    }
    if FindHost(after, cur).Some? {
      var i :| 0 <= i < |after| && after[i] == FindHost(after, cur).value;
      assert before[i] in before && before[i].id == cur;
    }
  }

  // The breaker's notifications

  lemma AttemptNotices(db: Db, cur: nat, reach: set<nat>, env: Env, attempt: nat)
    requires |db.hosts| > 0
    ensures
      var a := AttemptOf(db, false, cur, reach, env, attempt);
      && (Notified(CircuitOpenNotice) in a.trace <==> a.open) && Notified(CircuitCloseNotice) !in a.trace
      && (a.open ==> a.over)
  {
    hide DnsOf, SwitchEffects, AnyReady;
    var e := ElectionOf(db.hosts, cur, env.tie(attempt));
    if e.leader.Some? {
      DnsKinds(db, e.leader.value, env);
      SwitchNotifiesNobody(e, reach, env, attempt);
    }
    hide ElectionOf;
  }

  lemma SwitchNotifiesNobody(e: ElectionResult, reach: set<nat>, env: Env, attempt: nat)
    requires e.leader.Some?
    ensures forall x :: x in SwitchEffects(e, reach, env, attempt) ==> !x.Notified?
  {
    hide ConnectExit;
  }

  lemma {:induction false} LoopNotices(db: Db, cur: nat, reach: set<nat>, env: Env, attempt: nat)
    requires |db.hosts| > 0
    ensures
      var run := ElectLoop(db, false, cur, reach, env, attempt);
      && (Notified(CircuitOpenNotice) in run.trace <==> run.open) && Notified(CircuitCloseNotice) !in run.trace
    decreases MAX_ELECT_RETRIES - attempt
  {
    hide *;
    if attempt < MAX_ELECT_RETRIES {
      var a := AttemptOf(db, false, cur, reach, env, attempt);
      LoopUnfold(db, false, cur, reach, env, attempt);
      AttemptNotices(db, cur, reach, env, attempt);
      if !a.over {
        SameTable(a.trace, db);
        LoopNotices(Replay(a.trace, db), 0, reach, env, attempt + 1);
      }
    } else {
      NoMoreAttempts(db, cur, reach, env, attempt);
    }
  }

  lemma SameTable(t: seq<Effect>, db: Db)
    ensures |Replay(t, db).hosts| == |db.hosts|
  {
    hide LeaderAfterAll;
  }

  lemma NoMoreAttempts(db: Db, cur: nat, reach: set<nat>, env: Env, attempt: nat)
    requires attempt >= MAX_ELECT_RETRIES
    ensures ElectLoop(db, false, cur, reach, env, attempt) == LoopRun([], false)
  {
  }

  lemma NoHostsNotices(db: Db, cur: nat, reach: set<nat>, env: Env)
    requires db.hosts == []
    ensures ElectLoop(db, false, cur, reach, env, 0) == LoopRun([Notified(CircuitOpenNotice)], false)
  {
    hide Replay;
    assert [] + [Notified(CircuitOpenNotice)] == [Notified(CircuitOpenNotice)];
  }

  // The circuit_open notification goes out in a cycle without a Ready host to
  // begin with, if the breaker was not open before, or if the walk leaves it
  // open, or if there are no hosts at all; circuit_close goes out exactly if the
  // breaker was open and the checks leave a Ready host, or no host at all.
  lemma CircuitNotices(w: World, env: Env)
    ensures
      var t, hosts := CycleTrace(w, env), CheckedDb(w, env).hosts;
      var down := forall h :: h in hosts ==> h.state != Ready;
      && (Notified(CircuitOpenNotice) in t <==>
           if |hosts| == 0 then true else if down then !w.open else Cycle(w, env).open)
      && (Notified(CircuitCloseNotice) in t <==> w.open && (|hosts| == 0 || !down))
  {
    hide *;
    var db, reach := CheckedDb(w, env), ReachableIds(w.db.hosts, w.streaks, env);
    CycleIs(w, env);
    ChecksNotifyNobody(w, env);
    BreakerNotices(w, env);
    if |db.hosts| == 0 {
      NoHostsNotices(db, db.leader, reach, env);
    } else {
      LoopNotices(db, db.leader, reach, env, 0);
    }
  }

  lemma ChecksNotifyNobody(w: World, env: Env)
    ensures forall e :: e in CheckTrace(w.db.hosts, w.streaks, env) ==> !e.Notified?
  {
    hide CheckedRow;
    CheckTraceKind(w.db.hosts, w.streaks, env);
  }

  lemma BreakerNotices(w: World, env: Env)
    ensures
      var t, hosts := BreakerTrace(w, env), CheckedDb(w, env).hosts;
      var open := |hosts| > 0 && forall h :: h in hosts ==> h.state != Ready;
      && ShouldOpen(hosts) == open
      && (Notified(CircuitOpenNotice) in t <==> !w.open && open)
      && (Notified(CircuitCloseNotice) in t <==> w.open && !open)
  {
    hide CheckedDb;
  }
}
