// Safety of the effects of one cycle: in which order they come, whom they
// touch, and what the database looks like at every point between two of them.
module TraceSafety {
  import opened Models
  import opened Elections
  import opened Cycles
  import opened CheckPhase
  import opened Failover
  import opened CycleTheorems

  // Disconnects

  predicate TouchesPrevious(e: Effect) {
    e.Disconnected? || e.CommandsBlanked?
  }

  // At most one disconnect; it comes before every connect; commands are blanked
  // only for the host just disconnected.
  ghost predicate DisconnectsFirst(t: seq<Effect>) {
    && (forall i, j :: 0 <= i < |t| && 0 <= j < |t| && t[i].Disconnected? && t[j].Disconnected? ==> i == j)
    && (forall i, j :: 0 <= i < |t| && 0 <= j < |t| && t[i].Disconnected? && t[j].Connected? ==> i < j)
    && (forall i :: 0 <= i < |t| && t[i].CommandsBlanked? ==> i > 0 && t[i - 1] == Disconnected(t[i].host))
  }

  lemma DisconnectsFirstOf(pre: seq<Effect>, e: ElectionResult, reach: set<nat>, tail: seq<Effect>)
    requires forall x :: x in pre ==> !TouchesPrevious(x) && !x.Connected?
    requires forall x :: x in tail ==> !TouchesPrevious(x)
    ensures DisconnectsFirst(pre + DisconnectEffects(e, reach) + tail)
  {
    var t := pre + DisconnectEffects(e, reach) + tail;
    TouchedAt(pre, e, reach, tail);
    forall i | 0 <= i < |pre| ensures !t[i].Connected? {
      assert t[i] == pre[i] && pre[i] in pre;
    }
  }

  // Where the previous leader is touched, if it is.
  lemma TouchedAt(pre: seq<Effect>, e: ElectionResult, reach: set<nat>, tail: seq<Effect>)
    requires forall x :: x in pre || x in tail ==> !TouchesPrevious(x)
    ensures
      var mid := DisconnectEffects(e, reach);
      var t := pre + mid + tail;
      && (forall i :: 0 <= i < |t| ==>
           && (t[i].Disconnected? ==> i == |pre| && |mid| > 0)
           && (t[i].CommandsBlanked? ==> i == |pre| + 1 && |mid| > 1))
      && (|mid| > 0 ==> t[|pre|] == mid[0])
      && (|mid| > 1 ==> t[|pre| + 1] == mid[1])
  {
    var mid := DisconnectEffects(e, reach);
    var t := pre + mid + tail;
    forall i | 0 <= i < |t|
      ensures t[i].Disconnected? ==> i == |pre| && |mid| > 0
      ensures t[i].CommandsBlanked? ==> i == |pre| + 1 && |mid| > 1
    {
      if i < |pre| {
        assert t[i] == pre[i] && pre[i] in pre;
      } else if i < |pre| + |mid| {
        assert t[i] == mid[i - |pre|];
      } else {
        assert t[i] == tail[i - |pre| - |mid|] && t[i] in tail;
      }
    }
  }

  // The loop of a cycle that changes leader: its election, its disconnect, and
  // then nothing that touches a previous leader.
  lemma LoopOpens(db: Db, cur: nat, reach: set<nat>, env: Env) returns (tail: seq<Effect>)
    requires ValidIds(db) && ReadyReachable(db.hosts, reach)
    requires ElectionOf(db.hosts, cur, env.tie(0)).changed
    ensures
      var e := ElectionOf(db.hosts, cur, env.tie(0));
      ElectLoop(db, false, cur, reach, env, 0).trace == ElectionEffects(e) + DisconnectEffects(e, reach) + tail
    ensures forall x :: x in tail ==> !TouchesPrevious(x)
  {
    hide *;
    if AttemptOf(db, false, cur, reach, env, 0).over {
      tail := LoopOpensAndCommits(db, cur, reach, env);
    } else {
      tail := LoopOpensAndFails(db, cur, reach, env);
    }
    OpeningIs(ElectionOf(db.hosts, cur, env.tie(0)), reach);
  }

  lemma LoopOpensAndCommits(db: Db, cur: nat, reach: set<nat>, env: Env) returns (tail: seq<Effect>)
    requires ReadyReachable(db.hosts, reach) && ElectionOf(db.hosts, cur, env.tie(0)).changed
    requires AttemptOf(db, false, cur, reach, env, 0).over
    ensures ElectLoop(db, false, cur, reach, env, 0).trace ==
      Opening(ElectionOf(db.hosts, cur, env.tie(0)), reach) + tail
    ensures forall x :: x in tail ==> !TouchesPrevious(x)
  {
    hide *;
    var e := ElectionOf(db.hosts, cur, env.tie(0));
    AttemptShape(db, false, cur, reach, env, 0);
    RetriesLeft();
    OverLoop(db, false, cur, reach, env, 0);
    var own, dns := OwnEffects(e.leader.value, env, 0), DnsOf(db, e.leader.value, env);
    DnsKinds(db, e.leader.value, env);
    CommitTail(e.leader.value, env, 0, dns);
    tail := own + (dns.trace + CommitEffects(e.leader.value, dns));
  }

  lemma LoopOpensAndFails(db: Db, cur: nat, reach: set<nat>, env: Env) returns (tail: seq<Effect>)
    requires ValidIds(db) && ReadyReachable(db.hosts, reach) && ElectionOf(db.hosts, cur, env.tie(0)).changed
    requires !AttemptOf(db, false, cur, reach, env, 0).over
    ensures ElectLoop(db, false, cur, reach, env, 0).trace ==
      Opening(ElectionOf(db.hosts, cur, env.tie(0)), reach) + tail
    ensures forall x :: x in tail ==> !TouchesPrevious(x)
  {
    hide *;
    var e := ElectionOf(db.hosts, cur, env.tie(0));
    AttemptShape(db, false, cur, reach, env, 0);
    RetriesLeft();
    var l, a, after := AttemptFails(db, false, cur, reach, env, 0);
    var own, rest := OwnEffects(e.leader.value, env, 0), ElectLoop(after, a.open, 0, reach, env, 1).trace;
    LoopEffectsKind(after, a.open, 0, reach, env, 1);
    NoHostZero(after, rest, db, cur, reach);
    FailedTail(e.leader.value, env, 0, rest);
    tail := own + rest;
    assert Opening(e, reach) + own + [] + rest == Opening(e, reach) + tail;
  }

  lemma RetriesLeft()
    ensures 0 < MAX_ELECT_RETRIES
  {
  }

  lemma OpeningIs(e: ElectionResult, reach: set<nat>)
    ensures Opening(e, reach) == ElectionEffects(e) + DisconnectEffects(e, reach)
  {
  }

  lemma CommitTail(l: Host, env: Env, attempt: nat, dns: DnsRun)
    requires forall x :: x in dns.trace ==> IsDns(x)
    ensures forall x :: x in OwnEffects(l, env, attempt) + (dns.trace + CommitEffects(l, dns)) ==> !TouchesPrevious(x)
  {
  }

  lemma FailedTail(l: Host, env: Env, attempt: nat, u: seq<Effect>)
    requires forall x :: x in u ==> !x.Disconnected? && !x.CommandsBlanked?
    ensures forall x :: x in OwnEffects(l, env, attempt) + u ==> !TouchesPrevious(x)
  {
  }

  lemma CycleDisconnects(w: World, env: Env)
    requires ValidIds(w.db)
    ensures DisconnectsFirst(CycleTrace(w, env))
  {
    hide *;
    EarlyIsEarly(w, env);
    if FirstElection(w, env).changed {
      var db, reach := CheckedDb(w, env), ReachableIds(w.db.hosts, w.streaks, env);
      var e := ElectionOf(db.hosts, db.leader, env.tie(0));
      CycleParts(w, env);
      CheckedRows(w, env);
      AllReadyReachable(w, env);
      LoopIsElectLoop(w, env);
      var tail := LoopOpens(db, db.leader, reach, env);
      var pre := EarlyTrace(w, env) + ElectionEffects(e);
      PreIsQuiet(EarlyTrace(w, env), e);
      DisconnectsFirstOf(pre, e, reach, tail);
      assert CycleTrace(w, env) == pre + DisconnectEffects(e, reach) + tail;
    } else {
      UnchangedCycle(w, env);
      QuietDisconnects(CycleTrace(w, env));
    }
  }

  function DisconnectedBy(e: Effect): Option<nat> {
    if e.Disconnected? then Some(e.host) else None
  }

  // Whom a cycle disconnects: the stored leader, exactly when someone else is
  // elected, the leader has a row, and the cycle treats it as reachable.
  lemma DisconnectedExactly(w: World, env: Env)
    requires ValidIds(w.db)
    ensures Select(CycleTrace(w, env), DisconnectedBy) ==
      if FirstElection(w, env).changed && FindHost(CheckedDb(w, env).hosts, w.db.leader).Some?
         && w.db.leader in ReachableIds(w.db.hosts, w.streaks, env)
      then [w.db.leader] else []
  {
    hide *;
    EarlyIsEarly(w, env);
    if FirstElection(w, env).changed {
      var db, reach := CheckedDb(w, env), ReachableIds(w.db.hosts, w.streaks, env);
      var e := ElectionOf(db.hosts, db.leader, env.tie(0));
      CycleParts(w, env);
      CheckedRows(w, env);
      AllReadyReachable(w, env);
      LoopIsElectLoop(w, env);
      var tail := LoopOpens(db, db.leader, reach, env);
      var pre, mid := EarlyTrace(w, env) + ElectionEffects(e), DisconnectEffects(e, reach);
      PreIsQuiet(EarlyTrace(w, env), e);
      assert CycleTrace(w, env) == pre + mid + tail;
      SelectDisconnects(pre, mid, tail);
      SelectMid(e, db.leader, reach);
    } else {
      UnchangedCycle(w, env);
      EarlyDisconnectsNone(CycleTrace(w, env));
    }
  }

  lemma SelectDisconnects(pre: seq<Effect>, mid: seq<Effect>, tail: seq<Effect>)
    requires forall x :: x in pre || x in tail ==> !TouchesPrevious(x)
    ensures Select(pre + mid + tail, DisconnectedBy) == Select(mid, DisconnectedBy)
  {
    hide Select;
    SelectNothing(pre, DisconnectedBy);
    SelectNothing(tail, DisconnectedBy);
    SelectConcat(pre, mid, DisconnectedBy);
    SelectConcat(pre + mid, tail, DisconnectedBy);
  }

  lemma SelectMid(e: ElectionResult, leader: nat, reach: set<nat>)
    requires e.prevLeader.Some? ==> e.prevLeader.value.id == leader
    ensures Select(DisconnectEffects(e, reach), DisconnectedBy) ==
      if e.prevLeader.Some? && leader in reach then [leader] else []
  {
    hide Select;
    var t := DisconnectEffects(e, reach);
    if t == [] {
      SelectNothing(t, DisconnectedBy);
    } else {
      SelectOne(t[0], DisconnectedBy);
      SelectNothing(t[1..], DisconnectedBy);
      assert t == [t[0]] + t[1..];
      SelectConcat([t[0]], t[1..], DisconnectedBy);
    }
  }

  lemma EarlyDisconnectsNone(t: seq<Effect>)
    requires forall x :: x in t ==> IsEarly(x)
    ensures Select(t, DisconnectedBy) == []
  {
    hide Select;
    SelectNothing(t, DisconnectedBy);
  }

  lemma QuietDisconnects(t: seq<Effect>)
    requires forall x :: x in t ==> IsEarly(x)
    ensures DisconnectsFirst(t)
  {
    assert forall i :: 0 <= i < |t| ==> t[i] in t;
  }

  lemma PreIsQuiet(t: seq<Effect>, e: ElectionResult)
    requires forall x :: x in t ==> IsEarly(x)
    ensures forall x :: x in t + ElectionEffects(e) ==> !TouchesPrevious(x) && !x.Connected?
  {
  }

  // The effect at i disconnects or blanks no one but the leader stored at the
  // start; it blanks commands only right after the disconnect, and only if the
  // checks left that host Full or Dead; such a host is not one the trace commits.
  ghost predicate SafeAt(t: seq<Effect>, i: nat, leader: nat, reach: set<nat>, checked: seq<Host>)
    requires i < |t| && TouchesPrevious(t[i])
  {
    && t[i].host == leader && leader in reach
    && (t[i].CommandsBlanked? ==>
         && i > 0 && t[i - 1] == Disconnected(leader)
         && FindHost(checked, leader).Some? && FindHost(checked, leader).value.state != Ready
         && LeaderStored(leader) !in t)
  }

  // A cycle disconnects, and blanks the commands of, no one but the leader it
  // starts with, and that one only if it treats it as reachable.
  lemma DisconnectSafety(w: World, env: Env)
    requires ValidIds(w.db)
    ensures forall i :: 0 <= i < |CycleTrace(w, env)| && TouchesPrevious(CycleTrace(w, env)[i]) ==>
      SafeAt(CycleTrace(w, env), i, w.db.leader, ReachableIds(w.db.hosts, w.streaks, env), CheckedDb(w, env).hosts)
  {
    hide *;
    CycleParts(w, env);
    EarlyIsEarly(w, env);
    var t := CycleTrace(w, env);
    forall i | 0 <= i < |t| && TouchesPrevious(t[i])
      ensures SafeAt(t, i, w.db.leader, ReachableIds(w.db.hosts, w.streaks, env), CheckedDb(w, env).hosts)
    {
      InLoop(EarlyTrace(w, env), CycleLoop(w, env).trace, i);
      if !FirstElection(w, env).changed {
        UnchangedCycle(w, env);
        InLoop(t, [], i);
      } else {
        TouchedInLoop(w, env, t[i]);
        CycleDisconnects(w, env);
        BlankedAfter(t, i);
        SafeAtIf(t, i, w.db.leader, ReachableIds(w.db.hosts, w.streaks, env), CheckedDb(w, env).hosts);
      }
    }
  }

  lemma SafeAtIf(t: seq<Effect>, i: nat, leader: nat, reach: set<nat>, checked: seq<Host>)
    requires i < |t| && TouchesPrevious(t[i]) && t[i].host == leader && leader in reach
    requires t[i].CommandsBlanked? ==> i > 0 && t[i - 1] == Disconnected(t[i].host)
    requires t[i].CommandsBlanked? ==>
      FindHost(checked, leader).Some? && FindHost(checked, leader).value.state != Ready && LeaderStored(leader) !in t
    ensures SafeAt(t, i, leader, reach, checked)
  {
  }

  lemma InLoop(t: seq<Effect>, u: seq<Effect>, i: nat)
    requires (forall e :: e in t ==> IsEarly(e)) && i < |t + u| && TouchesPrevious((t + u)[i])
    ensures (t + u)[i] in u
  {
    assert forall j :: 0 <= j < |t| ==> t[j] in t;
  }

  lemma BlankedAfter(t: seq<Effect>, i: nat)
    requires DisconnectsFirst(t) && i < |t|
    ensures t[i].CommandsBlanked? ==> i > 0 && t[i - 1] == Disconnected(t[i].host)
  {
  }

  lemma TouchedInLoop(w: World, env: Env, x: Effect)
    requires ValidIds(w.db)
    ensures FirstElection(w, env).changed && x in CycleLoop(w, env).trace && TouchesPrevious(x) ==>
      && x.host == w.db.leader && w.db.leader in ReachableIds(w.db.hosts, w.streaks, env)
      && (x.CommandsBlanked? ==>
           && FindHost(CheckedDb(w, env).hosts, w.db.leader).Some?
           && FindHost(CheckedDb(w, env).hosts, w.db.leader).value.state != Ready
           && LeaderStored(w.db.leader) !in CycleTrace(w, env))
  {
    hide *;
    if FirstElection(w, env).changed && x in CycleLoop(w, env).trace && TouchesPrevious(x) {
      var db, reach := CheckedDb(w, env), ReachableIds(w.db.hosts, w.streaks, env);
      CheckedRows(w, env);
      AllReadyReachable(w, env);
      LoopIsElectLoop(w, env);
      LoopEffectsKind(db, false, db.leader, reach, env, 0);
      KindOf(CycleLoop(w, env).trace, x, db, db.leader, reach);
      if x.CommandsBlanked? {
        var pre, l := CycleShape(w, env);
        StoredIsReady(CycleTrace(w, env), db, env, pre, l, w.db.leader);
      }
    }
  }

  lemma KindOf(t: seq<Effect>, x: Effect, db: Db, cur: nat, reach: set<nat>)
    requires LoopEffects(t, db, cur, reach) && x in t && TouchesPrevious(x)
    ensures x.host == cur && cur in reach && FindHost(db.hosts, cur).Some?
    ensures x.CommandsBlanked? ==> FindHost(db.hosts, cur).value.state != Ready
  {
    assert LoopEffect(x, db, cur, reach);
  }

  lemma StoredIsReady(t: seq<Effect>, db: Db, env: Env, pre: seq<Effect>, l: Option<Host>, id: nat)
    requires DistinctIds(db.hosts) && Shaped(t, db, env, pre, l)
    requires FindHost(db.hosts, id).Some? && FindHost(db.hosts, id).value.state != Ready
    ensures LeaderStored(id) !in t
  {
    hide DnsOf;
    if l.Some? {
      DnsKinds(db, l.value, env);
      var i :| 0 <= i < |db.hosts| && db.hosts[i] == l.value;
      FindHostIsRow(db.hosts, i);
    }
  }

  // The disconnect at i is followed at once by the blanking of that host's
  // commands if and only if the checks left the host Full or Dead.
  ghost predicate BlanksIfExhausted(t: seq<Effect>, i: nat, checked: seq<Host>)
    requires i < |t| && t[i].Disconnected?
  {
    var row := FindHost(checked, t[i].host);
    && row.Some?
    && (i + 1 < |t| && t[i + 1] == CommandsBlanked(t[i].host) <==> row.value.state == Full || row.value.state == Dead)
  }

  lemma CycleBlanks(w: World, env: Env)
    requires ValidIds(w.db)
    ensures forall i :: 0 <= i < |CycleTrace(w, env)| && CycleTrace(w, env)[i].Disconnected? ==>
      BlanksIfExhausted(CycleTrace(w, env), i, CheckedDb(w, env).hosts)
  {
    hide *;
    EarlyIsEarly(w, env);
    if FirstElection(w, env).changed {
      var db, reach := CheckedDb(w, env), ReachableIds(w.db.hosts, w.streaks, env);
      var e := ElectionOf(db.hosts, db.leader, env.tie(0));
      CycleParts(w, env);
      CheckedRows(w, env);
      AllReadyReachable(w, env);
      LoopIsElectLoop(w, env);
      var tail := LoopOpens(db, db.leader, reach, env);
      var pre := EarlyTrace(w, env) + ElectionEffects(e);
      PreIsQuiet(EarlyTrace(w, env), e);
      BlanksBetween(pre, e, db.leader, reach, tail, db.hosts);
      assert CycleTrace(w, env) == pre + DisconnectEffects(e, reach) + tail;
    } else {
      UnchangedCycle(w, env);
      EarlyDisconnectsNobody(CycleTrace(w, env));
    }
  }

  lemma EarlyDisconnectsNobody(t: seq<Effect>)
    requires forall x :: x in t ==> IsEarly(x)
    ensures forall i :: 0 <= i < |t| ==> !t[i].Disconnected?
  {
    assert forall i :: 0 <= i < |t| ==> t[i] in t;
  }

  lemma BlanksBetween(pre: seq<Effect>, e: ElectionResult, leader: nat, reach: set<nat>, tail: seq<Effect>,
        checked: seq<Host>)
    requires e.prevLeader.Some? ==> e.prevLeader == FindHost(checked, leader)
    requires forall x :: x in pre || x in tail ==> !TouchesPrevious(x)
    ensures
      var t := pre + DisconnectEffects(e, reach) + tail;
      forall i :: 0 <= i < |t| && t[i].Disconnected? ==> BlanksIfExhausted(t, i, checked)
  {
    TouchedAt(pre, e, reach, tail);
  }

  // Commands are only ever blanked, and only by the effect that says so.
  lemma {:induction false} CommandsAfter(t: seq<Effect>, h: Host)
    ensures
      var blanked, after := CommandsBlanked(h.id) in t, RowAfterAll(t, h);
      && after.preCommand == (if blanked then "" else h.preCommand)
      && after.disconnectCommand == (if blanked then "" else h.disconnectCommand)
  {
    if |t| > 0 {
      var n := |t| - 1;
      assert t == t[..n] + [t[n]];
      CommandsAfter(t[..n], h);
    }
  }

  // In a cycle that disconnects a host the checks left Full or Dead, that host
  // loses its two commands; all others keep theirs, as do all hosts in any other
  // cycle.
  lemma CommandsAfterCycle(w: World, env: Env)
    requires ValidIds(w.db)
    ensures |CheckedDb(w, env).hosts| == |w.db.hosts| == |Cycle(w, env).db.hosts|
    ensures forall i :: 0 <= i < |w.db.hosts| ==>
      var before, checked, after := w.db.hosts[i], CheckedDb(w, env).hosts[i], Cycle(w, env).db.hosts[i];
      var lost := Disconnected(before.id) in CycleTrace(w, env) && (checked.state == Full || checked.state == Dead);
      && after.id == before.id
      && after.preCommand == (if lost then "" else before.preCommand)
      && after.disconnectCommand == (if lost then "" else before.disconnectCommand)
  {
    hide *;
    var t := CycleTrace(w, env);
    CycleDb(w, env);
    CheckedRows(w, env);
    CycleBlanks(w, env);
    CycleDisconnects(w, env);
    ReplayByRow(t, w.db);
    forall i | 0 <= i < |w.db.hosts|
      ensures
        var before, checked, after := w.db.hosts[i], CheckedDb(w, env).hosts[i], Cycle(w, env).db.hosts[i];
        var lost := Disconnected(before.id) in t && (checked.state == Full || checked.state == Dead);
        && after.id == before.id
        && after.preCommand == (if lost then "" else before.preCommand)
        && after.disconnectCommand == (if lost then "" else before.disconnectCommand)
    {
      CommandsAfter(t, w.db.hosts[i]);
      RowIdKept(w.db.hosts[i], w.streaks, env);
      ValidIsDistinct(CheckedDb(w, env));
      FindHostIsRow(CheckedDb(w, env).hosts, i);
      BlankedWhenLost(t, CheckedDb(w, env).hosts, CheckedDb(w, env).hosts[i]);
    }
  }

  lemma ReplayByRow(t: seq<Effect>, db: Db)
    ensures |Replay(t, db).hosts| == |db.hosts|
    ensures forall i :: 0 <= i < |db.hosts| ==> Replay(t, db).hosts[i] == RowAfterAll(t, db.hosts[i])
  {
    hide RowAfterAll;
  }

  lemma RowIdKept(h: Host, s: Streaks, env: Env)
    ensures CheckedRow(h, s, env).id == h.id
  {
    hide ResultOf;
  }

  lemma BlankedWhenLost(t: seq<Effect>, checked: seq<Host>, h: Host)
    requires DisconnectsFirst(t) && FindHost(checked, h.id) == Some(h)
    requires forall i :: 0 <= i < |t| && t[i].Disconnected? ==> BlanksIfExhausted(t, i, checked)
    ensures CommandsBlanked(h.id) in t <==> Disconnected(h.id) in t && (h.state == Full || h.state == Dead)
  {
    hide FindHost;
    if CommandsBlanked(h.id) in t {
      var i :| 0 <= i < |t| && t[i] == CommandsBlanked(h.id);
      assert t[i - 1] == Disconnected(h.id) && BlanksIfExhausted(t, i - 1, checked);
    }
    if Disconnected(h.id) in t && (h.state == Full || h.state == Dead) {
      var i :| 0 <= i < |t| && t[i] == Disconnected(h.id);
      assert BlanksIfExhausted(t, i, checked);
    }
  }

  // DNS

  predicate NamesAddressOf(e: Effect, l: Host) {
    match e
    case DnsUpdated(_, ip, _) => ip == l.ip
    case DnsVerified(_, ip) => ip == l.ip
    case RemoteSynced(host, _) => host == l.id
    case _ => false
  }

  lemma {:induction false} RuleDnsNames(rules: seq<Rule>, i: nat, leader: Host, env: Env)
    ensures forall e :: e in RuleDns(rules, i, leader, env).trace ==> NamesAddressOf(e, leader)
    decreases |rules| - i
  {
    hide RuleApplies, RuleHasCreds;
    if i < |rules| {
      RuleDnsNames(rules, i + 1, leader, env);
    }
  }

  // The DNS effect at i is about the address of this Ready host, which has
  // connected before it and is stored as the leader after it.
  ghost predicate DnsFor(t: seq<Effect>, i: nat, l: Host, connected: nat, stored: nat)
    requires i < |t|
  {
    && l.state == Ready && NamesAddressOf(t[i], l)
    && connected < i < stored < |t|
    && t[connected] == Connected(l.id, 0) && t[stored] == LeaderStored(l.id)
  }

  // Every DNS effect of a cycle is about the one host the cycle commits.
  lemma DnsSafety(w: World, env: Env)
    requires ValidIds(w.db)
    ensures
      var t := CycleTrace(w, env);
      forall i :: 0 <= i < |t| && IsDns(t[i]) ==>
        exists l, connected: nat, stored: nat ::
          DnsFor(t, i, l, connected, stored) && l in CheckedDb(w, env).hosts && Cycle(w, env).db.leader == l.id
  {
    hide *;
    var t := CycleTrace(w, env);
    var pre, committed := CycleShape(w, env);
    forall i | 0 <= i < |t| && IsDns(t[i])
      ensures exists l, connected: nat, stored: nat ::
        DnsFor(t, i, l, connected, stored) && l in CheckedDb(w, env).hosts && Cycle(w, env).db.leader == l.id
    {
      DnsIsLate(t, CheckedDb(w, env), env, pre, committed, i);
      var l := committed.value;
      var stored := |pre| + 1 + |DnsOf(CheckedDb(w, env), l, env).trace| + 2;
      DnsForIf(t, i, l, |pre|, stored);
    }
  }

  lemma DnsForIf(t: seq<Effect>, i: nat, l: Host, connected: nat, stored: nat)
    requires i < |t| && l.state == Ready && NamesAddressOf(t[i], l) && connected < i < stored < |t|
    requires t[connected] == Connected(l.id, 0) && t[stored] == LeaderStored(l.id)
    ensures DnsFor(t, i, l, connected, stored)
  {
  }

  lemma DnsIsLate(t: seq<Effect>, db: Db, env: Env, pre: seq<Effect>, l: Option<Host>, i: nat)
    requires Shaped(t, db, env, pre, l) && i < |t| && IsDns(t[i])
    ensures l.Some? && l.value in db.hosts && l.value.state == Ready
    ensures
      var stored := |pre| + 1 + |DnsOf(db, l.value, env).trace| + 2;
      && |pre| < i < stored < |t|
      && t[|pre|] == Connected(l.value.id, 0)
      && t[stored] == LeaderStored(l.value.id)
    ensures NamesAddressOf(t[i], l.value)
  {
    hide DnsOf;
    assert forall j :: 0 <= j < |pre| ==> pre[j] in pre;
    if l.Some? {
      var dns := DnsOf(db, l.value, env);
      var commit := CommitEffects(l.value, dns);
      assert t == pre + [Connected(l.value.id, 0)] + dns.trace + commit;
      DnsOfNames(db, l.value, env);
      var n := |pre| + 1 + |dns.trace|;
      forall p | |pre| < p < n ensures NamesAddressOf(t[p], l.value) {
        assert t[p] == dns.trace[p - |pre| - 1];
      }
      forall p | n <= p < |t| ensures !IsDns(t[p]) {
        assert t[p] == commit[p - n];
      }
    }
  }

  lemma DnsOfNames(db: Db, leader: Host, env: Env)
    ensures forall e :: e in DnsOf(db, leader, env).trace ==> NamesAddressOf(e, leader)
  {
    RuleDnsNames(db.rules, 0, leader, env);
  }

  // Leader flags

  // Only the host with this id may carry the leader flag.
  ghost predicate OnlyFlagged(hosts: seq<Host>, id: nat) {
    forall h :: h in hosts && h.isLeader ==> h.id == id
  }

  ghost predicate AtMostOneFlag(hosts: seq<Host>) {
    forall i, j :: 0 <= i < j < |hosts| ==> !(hosts[i].isLeader && hosts[j].isLeader)
  }

  lemma {:induction false} FlagKept(t: seq<Effect>, h: Host)
    requires forall e :: e in t ==> !e.FlagsCleared? && !e.FlagSet?
    ensures RowAfterAll(t, h).isLeader == h.isLeader
  {
    if |t| > 0 {
      assert t[|t| - 1] in t && forall e :: e in t[..|t| - 1] ==> e in t;
      FlagKept(t[..|t| - 1], h);
    }
  }

  // What the first m effects of a commit do to a flag and to the stored leader.
  lemma {:induction false} CommitFlags(l: Host, dns: DnsRun, m: nat, h: Host, leader: nat)
    requires m <= |CommitEffects(l, dns)|
    ensures RowAfterAll(CommitEffects(l, dns)[..m], h).isLeader ==
      if m == 0 then h.isLeader else if m == 1 then h.isLeader && h.id == l.id else h.id == l.id
    ensures LeaderAfterAll(CommitEffects(l, dns)[..m], leader) == if m >= 3 then l.id else leader
    ensures LeaderStored(l.id) in CommitEffects(l, dns)[..m] <==> m >= 3
  {
    CommitAt(l, dns);
    NoEffects(h, leader);
    hide CommitEffects, RowAfterAll, LeaderAfterAll;
    var t := CommitEffects(l, dns);
    if m == 0 {
      assert t[..0] == [];
    } else {
      CommitFlags(l, dns, m - 1, h, leader);
      var before, e := t[..m - 1], t[m - 1];
      assert t[..m][..m - 1] == before && t[..m] == before + [e];
      OneMore(before, e, h, leader);
    }
  }

  lemma NoEffects(h: Host, leader: nat)
    ensures RowAfterAll([], h) == h && LeaderAfterAll([], leader) == leader
  {
  }

  lemma CommitAt(l: Host, dns: DnsRun)
    ensures
      var t := CommitEffects(l, dns);
      && |t| >= 4 && t[0] == FlagsCleared(l.id) && t[1] == FlagSet(l.id) && t[2] == LeaderStored(l.id)
      && forall i :: 3 <= i < |t| ==> t[i].Notified?
  {
  }

  lemma OneMore(t: seq<Effect>, e: Effect, h: Host, leader: nat)
    ensures RowAfterAll(t + [e], h) == RowAfter(e, RowAfterAll(t, h))
    ensures LeaderAfterAll(t + [e], leader) == if e.LeaderStored? then e.host else LeaderAfterAll(t, leader)
  {
    assert (t + [e])[..|t + [e]| - 1] == t;
  }

  // The flagged host, if any, is the stored leader.
  ghost predicate Agrees(db: Db) {
    OnlyFlagged(db.hosts, db.leader)
  }

  // Whether they agree once these first effects of a cycle are written: yes after
  // the new leader is stored, no between flagging and storing another one.
  ghost predicate AgreesAfter(t: seq<Effect>, db: Db) {
    if exists e :: e in t && e.LeaderStored? then true
    else if |t| > 0 && t[|t| - 1].FlagSet? then t[|t| - 1].host == db.leader
    else if |t| > 0 && t[|t| - 1].FlagsCleared? then
      forall h :: h in db.hosts && h.isLeader && h.id == t[|t| - 1].except ==> h.id == db.leader
    else Agrees(db)
  }

  // A stretch without flag writes, and then m effects of the commit of l.
  lemma FlagsAfterParts(t: seq<Effect>, l: Host, dns: DnsRun, m: nat, db: Db)
    requires forall e :: e in t ==> !e.FlagsCleared? && !e.FlagSet? && !e.LeaderStored?
    requires m <= |CommitEffects(l, dns)| && DistinctIds(db.hosts)
    requires m > 0 ==> exists i :: 0 <= i < |db.hosts| && db.hosts[i].id == l.id
    ensures
      var after := Replay(t + CommitEffects(l, dns)[..m], db);
      && (AtMostOneFlag(db.hosts) ==> AtMostOneFlag(after.hosts))
      && (Agrees(after) <==> AgreesAfter(t + CommitEffects(l, dns)[..m], db))
  {
    hide RowAfterAll, LeaderAfterAll, CommitEffects;
    var u := CommitEffects(l, dns)[..m];
    var after := Replay(t + u, db);
    LeaderAfterConcat(t, u, db.leader);
    NoLeaderStored(t, db.leader);
    forall i | 0 <= i < |db.hosts|
      ensures after.hosts[i].isLeader == FlagAfter(db.hosts[i], l.id, m) && after.hosts[i].id == db.hosts[i].id
      ensures after.leader == if m >= 3 then l.id else db.leader
      ensures LeaderStored(l.id) in u <==> m >= 3
    {
      RowAfterConcat(t, u, db.hosts[i]);
      FlagKept(t, db.hosts[i]);
      CommitFlags(l, dns, m, RowAfterAll(t, db.hosts[i]), db.leader);
    }
    CommitFlags(l, dns, m, NO_HOST, db.leader);
    OneFlagAfter(db.hosts, after.hosts, l.id, m);
    LastOfCut(t, l, dns, m, db);
    AgreesByRows(db, after, l.id, m);
  }

  const NO_HOST := Host(0, "", 0, "", 0, "", "", Dead, false)

  function FlagAfter(h: Host, id: nat, m: nat): bool {
    if m == 0 then h.isLeader else if m == 1 then h.isLeader && h.id == id else h.id == id
  }

  ghost predicate FlagRows(before: seq<Host>, after: seq<Host>, id: nat, m: nat) {
    && |after| == |before|
    && forall i :: 0 <= i < |before| ==>
         after[i].id == before[i].id && after[i].isLeader == FlagAfter(before[i], id, m)
  }

  lemma OneFlagAfter(before: seq<Host>, after: seq<Host>, id: nat, m: nat)
    requires FlagRows(before, after, id, m) && DistinctIds(before)
    ensures AtMostOneFlag(before) ==> AtMostOneFlag(after)
  {
  }

  // AgreesAfter, by how much of the commit was reached.
  ghost predicate AgreesAt(db: Db, id: nat, m: nat) {
    if m >= 3 then true
    else if m == 2 then id == db.leader
    else if m == 1 then forall h :: h in db.hosts && h.isLeader && h.id == id ==> h.id == db.leader
    else Agrees(db)
  }

  lemma LastOfCut(t: seq<Effect>, l: Host, dns: DnsRun, m: nat, db: Db)
    requires forall e :: e in t ==> !e.FlagsCleared? && !e.FlagSet? && !e.LeaderStored?
    requires m <= |CommitEffects(l, dns)|
    ensures AgreesAfter(t + CommitEffects(l, dns)[..m], db) <==> AgreesAt(db, l.id, m)
  {
    hide Agrees;
    var all := t + CommitEffects(l, dns)[..m];
    if m == 0 {
      assert all == t;
      assert |t| > 0 ==> t[|t| - 1] in t;
    } else if m >= 3 {
      assert all[|t| + 2] == LeaderStored(l.id);
    } else {
      assert forall e :: e in all ==> e in t || e in CommitEffects(l, dns)[..m];
    }
  }

  lemma AgreesByIndex(db: Db)
    ensures Agrees(db) <==> forall i :: 0 <= i < |db.hosts| && db.hosts[i].isLeader ==> db.hosts[i].id == db.leader
  {
    if forall i :: 0 <= i < |db.hosts| && db.hosts[i].isLeader ==> db.hosts[i].id == db.leader {
      forall h | h in db.hosts && h.isLeader ensures h.id == db.leader {
        var i :| 0 <= i < |db.hosts| && db.hosts[i] == h;
      }
    }
    if Agrees(db) {
      forall i | 0 <= i < |db.hosts| && db.hosts[i].isLeader ensures db.hosts[i].id == db.leader {
        assert db.hosts[i] in db.hosts;
      }
    }
  }

  lemma SparedByIndex(db: Db, id: nat)
    ensures AgreesAt(db, id, 1) <==>
      forall i :: 0 <= i < |db.hosts| && db.hosts[i].isLeader && db.hosts[i].id == id ==> id == db.leader
  {
    if AgreesAt(db, id, 1) {
      forall i | 0 <= i < |db.hosts| && db.hosts[i].isLeader && db.hosts[i].id == id ensures id == db.leader {
        assert db.hosts[i] in db.hosts;
      }
    }
  }

  lemma AgreesByRows(db: Db, after: Db, id: nat, m: nat)
    requires FlagRows(db.hosts, after.hosts, id, m) && after.leader == if m >= 3 then id else db.leader
    requires m > 0 ==> exists i :: 0 <= i < |db.hosts| && db.hosts[i].id == id
    ensures Agrees(after) <==> AgreesAt(db, id, m)
  {
    AgreesByIndex(after);
    if m == 0 {
      AgreesByIndex(db);
      hide Agrees;
    } else if m == 1 {
      SparedByIndex(db, id);
      hide Agrees, AgreesAt;
    } else if m == 2 {
      hide Agrees;
      var i :| 0 <= i < |db.hosts| && db.hosts[i].id == id;
      assert after.hosts[i].isLeader;
    }
  }

  // Where the flags stand when k effects of a cycle have been written.
  lemma FlagsAfterCut(w: World, env: Env, k: nat)
    requires ValidIds(w.db)
    ensures k <= |CycleTrace(w, env)| ==>
      var t := CycleTrace(w, env)[..k];
      && (AtMostOneFlag(w.db.hosts) ==> AtMostOneFlag(Replay(t, w.db).hosts))
      && (Agrees(Replay(t, w.db)) <==> AgreesAfter(t, w.db))
  {
    hide *;
    if k <= |CycleTrace(w, env)| {
      var pre, l := CycleShape(w, env);
      CheckedRows(w, env);
      ValidIsDistinct(w.db);
      var host, dns, t, m := SplitAtCommit(CycleTrace(w, env), CheckedDb(w, env), env, pre, l, k);
      if m > 0 {
        StillInTable(w, env, host);
      }
      FlagsAfterParts(t, host, dns, m, w.db);
    }
  }

  lemma StillInTable(w: World, env: Env, h: Host)
    requires ValidIds(w.db) && h in CheckedDb(w, env).hosts
    ensures exists i :: 0 <= i < |w.db.hosts| && w.db.hosts[i].id == h.id
  {
    hide CheckedDb, ResultOf;
    CheckedRows(w, env);
    var i :| 0 <= i < |w.db.hosts| && CheckedDb(w, env).hosts[i] == h;
    assert w.db.hosts[i].id == h.id;
  }

  // At every point inside a cycle that starts with at most one host flagged as
  // the leader, at most one is.
  lemma FlagsAtEveryStep(w: World, env: Env, k: nat)
    requires ValidIds(w.db) && AtMostOneFlag(w.db.hosts)
    ensures k <= |CycleTrace(w, env)| ==> AtMostOneFlag(Replay(CycleTrace(w, env)[..k], w.db).hosts)
  {
    hide *;
    FlagsAfterCut(w, env, k);
  }

  // After a cycle only the stored leader can carry the flag, exactly if the cycle
  // committed a host or this was so before.
  lemma FlagsAfterCycle(w: World, env: Env)
    requires ValidIds(w.db)
    ensures AtMostOneFlag(w.db.hosts) ==> AtMostOneFlag(Cycle(w, env).db.hosts)
    ensures Agrees(Cycle(w, env).db) <==> Agrees(w.db) || exists e :: e in CycleTrace(w, env) && e.LeaderStored?
  {
    hide *;
    var t := CycleTrace(w, env);
    FlagsAfterCut(w, env, |t|);
    assert t[..|t|] == t;
    CycleDb(w, env);
    var pre, l := CycleShape(w, env);
    WholeCommits(t, CheckedDb(w, env), env, pre, l, w.db);
  }

  lemma WholeCommits(t: seq<Effect>, checked: Db, env: Env, pre: seq<Effect>, l: Option<Host>, db: Db)
    requires Shaped(t, checked, env, pre, l)
    ensures AgreesAfter(t, db) <==> Agrees(db) || exists e :: e in t && e.LeaderStored?
  {
    hide DnsOf, Agrees;
    if l.Some? {
      var dns := DnsOf(checked, l.value, env);
      assert t[|pre| + 1 + |dns.trace| + 2] == LeaderStored(l.value.id);
    } else {
      assert |t| > 0 ==> t[|t| - 1] in pre;
    }
  }

  // A cycle that stores a leader leaves the flag on that host and on no other; any
  // other cycle leaves every flag as it was.
  lemma FlagFollowsLeader(w: World, env: Env)
    requires ValidIds(w.db)
    ensures |Cycle(w, env).db.hosts| == |w.db.hosts|
    ensures
      var stored := exists e :: e in CycleTrace(w, env) && e.LeaderStored?;
      forall i :: 0 <= i < |w.db.hosts| ==>
        Cycle(w, env).db.hosts[i].isLeader ==
          if stored then w.db.hosts[i].id == Cycle(w, env).db.leader else w.db.hosts[i].isLeader
  {
    hide *;
    var t := CycleTrace(w, env);
    var pre, l := CycleShape(w, env);
    CycleDb(w, env);
    ReplayByRow(t, w.db);
    forall i | 0 <= i < |w.db.hosts|
      ensures RowAfterAll(t, w.db.hosts[i]).isLeader ==
        if l.Some? then w.db.hosts[i].id == l.value.id else w.db.hosts[i].isLeader
      ensures l.Some? <==> exists e :: e in t && e.LeaderStored?
    {
      ShapeFlags(t, CheckedDb(w, env), env, pre, l, w.db.hosts[i]);
    }
  }

  lemma ShapeFlags(t: seq<Effect>, db: Db, env: Env, pre: seq<Effect>, l: Option<Host>, h: Host)
    requires Shaped(t, db, env, pre, l)
    ensures RowAfterAll(t, h).isLeader == if l.Some? then h.id == l.value.id else h.isLeader
    ensures l.Some? <==> exists e :: e in t && e.LeaderStored?
  {
    hide DnsOf, RowAfterAll, CommitEffects;
    if l.Some? {
      var dns := DnsOf(db, l.value, env);
      DnsKinds(db, l.value, env);
      CommitAt(l.value, dns);
      var before, commit := pre + [Connected(l.value.id, 0)] + dns.trace, CommitEffects(l.value, dns);
      assert t == before + commit && commit[..|commit|] == commit;
      assert commit[2] in t;
      RowAfterConcat(before, commit, h);
      CommitFlags(l.value, dns, |commit|, RowAfterAll(before, h), 0);
    } else {
      FlagKept(pre, h);
    }
  }

  lemma CycleDb(w: World, env: Env)
    ensures Cycle(w, env).db == Replay(CycleTrace(w, env), w.db)
  {
    hide CycleTrace, Replay;
  }

  // Cuts the first k effects of a cycle where its commit begins.
  lemma SplitAtCommit(whole: seq<Effect>, db: Db, env: Env, pre: seq<Effect>, l: Option<Host>, k: nat)
    returns (h: Host, dns: DnsRun, t: seq<Effect>, m: nat)
    requires Shaped(whole, db, env, pre, l) && k <= |whole|
    ensures m <= |CommitEffects(h, dns)| && whole[..k] == t + CommitEffects(h, dns)[..m]
    ensures forall e :: e in t ==> !e.FlagsCleared? && !e.FlagSet? && !e.LeaderStored?
    ensures m > 0 ==> l == Some(h) && h in db.hosts
  {
    hide DnsOf, CommitEffects;
    h, dns, t, m := NO_HOST, DnsRun([], false, false), whole[..k], 0;
    assert CommitEffects(h, dns)[..0] == [];
    assert l.None? ==> forall e :: e in t ==> e in pre;
    if l.Some? {
      h, dns := l.value, DnsOf(db, l.value, env);
      DnsKinds(db, h, env);
      var commit := CommitEffects(h, dns);
      var before := pre + [Connected(h.id, 0)] + dns.trace;
      assert whole == before + commit;
      assert commit[..0] == [];
      if k > |before| {
        t, m := before, k - |before|;
        assert whole[..k] == t + commit[..m];
      } else {
        assert whole[..k] == before[..k];
        assert forall e :: e in t ==> e in before;
      }
    }
  }
}
