// The election loop against a simple specification: walk the Ready hosts in
// priority order, and commit the first that connects within three attempts.
module Failover {
  import opened Models
  import opened Elections
  import opened Cycles
  import opened CheckPhase

  // The simple specification

  // All Ready hosts, each once, by ascending priority.
  ghost predicate PriorityOrder(order: seq<Host>, hosts: seq<Host>) {
    && AscendingPriority(order)
    && DistinctIds(order)
    && forall h :: h in order <==> h in hosts && h.state == Ready
  }

  predicate AscendingPriority(hosts: seq<Host>) {
    forall i, j :: 0 <= i < j < |hosts| ==> hosts[i].priority <= hosts[j].priority
  }

  // How many hosts may be tried from this attempt on.
  function Budget(order: seq<Host>, attempt: nat): nat {
    var left := if attempt < MAX_ELECT_RETRIES then MAX_ELECT_RETRIES - attempt else 0;
    if |order| < left then |order| else left
  }

  // How many hosts fail to connect before one succeeds or the budget is spent.
  function FailuresFirst(order: seq<Host>, env: Env, attempt: nat): (k: nat)
    ensures k <= |order|
    decreases |order|
  {
    if Budget(order, attempt) == 0 || ConnectExit(order[0], env, attempt) == 0 then 0
    else 1 + FailuresFirst(order[1..], env, attempt + 1)
  }

  lemma {:induction false} FailuresFirstIsLeast(order: seq<Host>, env: Env, attempt: nat)
    ensures
      var k := FailuresFirst(order, env, attempt);
      && k <= Budget(order, attempt)
      && (forall j :: 0 <= j < k ==> ConnectExit(order[j], env, attempt + j) != 0)
      && (k < Budget(order, attempt) ==> ConnectExit(order[k], env, attempt + k) == 0)
  {
    if Budget(order, attempt) > 0 && ConnectExit(order[0], env, attempt) != 0 {
      FailuresFirstIsLeast(order[1..], env, attempt + 1);
      var k := FailuresFirst(order[1..], env, attempt + 1);
      forall j | 0 <= j < k + 1 ensures ConnectExit(order[j], env, attempt + j) != 0 {
        if j > 0 {
          assert order[j] == order[1..][j - 1];
        }
      }
    }
  }

  function Ids(hosts: seq<Host>): (r: seq<nat>)
    ensures |r| == |hosts|
  {
    seq(|hosts|, i requires 0 <= i < |hosts| => hosts[i].id)
  }

  // Reading a trace

  // The hosts of the effects f selects, in order.
  function Select(t: seq<Effect>, f: Effect -> Option<nat>): seq<nat> {
    if |t| == 0 then []
    else (if f(t[0]).Some? then [f(t[0]).value] else []) + Select(t[1..], f)
  }

  lemma {:induction false} SelectConcat(t: seq<Effect>, u: seq<Effect>, f: Effect -> Option<nat>)
    ensures Select(t + u, f) == Select(t, f) + Select(u, f)
  {
    if |t| == 0 {
      assert t + u == u;
    } else {
      assert (t + u)[0] == t[0] && (t + u)[1..] == t[1..] + u;
      SelectConcat(t[1..], u, f);
      var first := if f(t[0]).Some? then [f(t[0]).value] else [];
      assert Select(t, f) == first + Select(t[1..], f);
      assert Select(t + u, f) == first + Select(t[1..] + u, f);
    }
  }

  lemma {:induction false} SelectNothing(t: seq<Effect>, f: Effect -> Option<nat>)
    requires forall e :: e in t ==> f(e).None?
    ensures Select(t, f) == []
  {
    if |t| > 0 {
      assert t[0] in t && forall e :: e in t[1..] ==> e in t;
      SelectNothing(t[1..], f);
    }
  }

  lemma {:induction false} SelectedIn(t: seq<Effect>, f: Effect -> Option<nat>, id: nat)
    ensures id in Select(t, f) <==> exists e :: e in t && f(e) == Some(id)
  {
    if |t| > 0 {
      SelectedIn(t[1..], f, id);
      assert t == [t[0]] + t[1..];
    }
  }

  function TriedBy(e: Effect): Option<nat> {
    if e.Connected? then Some(e.host) else None
  }

  function KilledByConnect(e: Effect): Option<nat> {
    if e.StateChanged? && e.cause == ConnectFailed && e.to == Dead then Some(e.host) else None
  }

  function StoredBy(e: Effect): Option<nat> {
    if e.LeaderStored? then Some(e.host) else None
  }

  // Whom a trace tries to connect, whom it kills for failing to, and whom it
  // commits as the leader.
  datatype Report = Report(tried: seq<nat>, killed: seq<nat>, committed: seq<nat>)

  function ReportOf(t: seq<Effect>): Report {
    Report(Select(t, TriedBy), Select(t, KilledByConnect), Select(t, StoredBy))
  }

  // One attempt

  // What the elected host's own part of an attempt comes to, when it is Ready
  // and reachable.
  function OwnEffects(l: Host, env: Env, attempt: nat): seq<Effect> {
    var exitCode := ConnectExit(l, env, attempt);
    [Connected(l.id, exitCode)] + if exitCode != 0 then [StateChanged(l.id, Ready, Dead, ConnectFailed)] else []
  }

  lemma ReadySettles(l: Host, reach: set<nat>, env: Env, attempt: nat)
    requires l.state == Ready && l.id in reach
    ensures SettleEffects(l, reach, env, attempt) == OwnEffects(l, env, attempt)
  {
  }

  // The part of an attempt before the connect command.
  function Opening(e: ElectionResult, reach: set<nat>): seq<Effect> {
    ElectionEffects(e) + DisconnectEffects(e, reach)
  }

  ghost predicate ReadyReachable(hosts: seq<Host>, reach: set<nat>) {
    forall h :: h in hosts && h.state == Ready ==> h.id in reach
  }

  // An attempt that elects a new leader, in the cycle's own order of effects.
  lemma AttemptShape(db: Db, open: bool, cur: nat, reach: set<nat>, env: Env, attempt: nat)
    requires ReadyReachable(db.hosts, reach)
    requires ElectionOf(db.hosts, cur, env.tie(attempt)).changed
    ensures
      var e := ElectionOf(db.hosts, cur, env.tie(attempt));
      var l := e.leader.value;
      var a := AttemptOf(db, open, cur, reach, env, attempt);
      var own := OwnEffects(l, env, attempt);
      var dns := DnsOf(db, l, env);
      && a.open == open
      && a.over == (ConnectExit(l, env, attempt) == 0)
      && a.trace == Opening(e, reach) + own + (if a.over then dns.trace + CommitEffects(l, dns) else [])
  {
    var e := ElectionOf(db.hosts, cur, env.tie(attempt));
    var l := e.leader.value;
    ReadySettles(l, reach, env, attempt);
    assert ElectionEffects(e) + (DisconnectEffects(e, reach) + OwnEffects(l, env, attempt))
        == Opening(e, reach) + OwnEffects(l, env, attempt);
    assert Opening(e, reach) + OwnEffects(l, env, attempt) + [] == Opening(e, reach) + OwnEffects(l, env, attempt);
    var dns := DnsOf(db, l, env);
  }

  lemma DisconnectRow(p: Host, h: Host)
    ensures RowAfterAll([Disconnected(p.id)] + BlankIfExhausted(p), h) ==
      if p.state != Ready && h.id == p.id then h.(preCommand := "", disconnectCommand := "") else h
  {
    SilentRow([Disconnected(p.id)], h);
    RowAfterConcat([Disconnected(p.id)], BlankIfExhausted(p), h);
    if p.state != Ready {
      RowAfterOne(CommandsBlanked(p.id), h);
    }
  }

  // The opening only ever blanks the commands of a host that is not Ready.
  lemma OpeningRow(e: ElectionResult, reach: set<nat>, h: Host)
    requires e.prevLeader.Some? && e.prevLeader.value.id == h.id ==> e.prevLeader.value == h
    ensures RowAfterAll(Opening(e, reach), h).state == h.state
    ensures RowAfterAll(Opening(e, reach), h).isLeader == h.isLeader
    ensures h.state == Ready ==> RowAfterAll(Opening(e, reach), h) == h
  {
    var t, u := ElectionEffects(e), DisconnectEffects(e, reach);
    RowAfterConcat(t, u, h);
    SilentRow(t, h);
    if u != [] {
      DisconnectRow(e.prevLeader.value, h);
    }
  }

  lemma OwnRow(l: Host, env: Env, attempt: nat, h: Host)
    ensures RowAfterAll(OwnEffects(l, env, attempt), h) ==
      if ConnectExit(l, env, attempt) != 0 && h.id == l.id then h.(state := Dead) else h
  {
    var exitCode := ConnectExit(l, env, attempt);
    SilentRow([Connected(l.id, exitCode)], h);
    if exitCode != 0 {
      RowAfterConcat([Connected(l.id, exitCode)], [StateChanged(l.id, Ready, Dead, ConnectFailed)], h);
      RowAfterOne(StateChanged(l.id, Ready, Dead, ConnectFailed), h);
    }
  }

  // A failed attempt kills the host it tried and leaves every other Ready host
  // exactly as it was.
  ghost predicate FailedRow(before: Host, after: Host, tried: nat) {
    && after.id == before.id
    && after.isLeader == before.isLeader
    && after.state == (if before.id == tried then Dead else before.state)
    && (before.state == Ready && before.id != tried ==> after == before)
  }

  ghost predicate FailedTable(before: seq<Host>, after: seq<Host>, tried: nat) {
    && |after| == |before|
    && forall i :: 0 <= i < |before| ==> FailedRow(before[i], after[i], tried)
  }

  lemma AttemptRow(e: ElectionResult, reach: set<nat>, env: Env, attempt: nat, h: Host)
    requires e.leader.Some? && ConnectExit(e.leader.value, env, attempt) != 0
    requires e.prevLeader.Some? && e.prevLeader.value.id == h.id ==> e.prevLeader.value == h
    ensures FailedRow(h, RowAfterAll(Opening(e, reach) + OwnEffects(e.leader.value, env, attempt), h),
                      e.leader.value.id)
  {
    RowAfterConcat(Opening(e, reach), OwnEffects(e.leader.value, env, attempt), h);
    OpeningRow(e, reach, h);
    OwnRow(e.leader.value, env, attempt, RowAfterAll(Opening(e, reach), h));
  }

  lemma FailedAttempt(db: Db, open: bool, cur: nat, reach: set<nat>, env: Env, attempt: nat)
    requires ValidIds(db) && ReadyReachable(db.hosts, reach)
    requires ElectionOf(db.hosts, cur, env.tie(attempt)).changed
    requires !AttemptOf(db, open, cur, reach, env, attempt).over
    ensures
      var after := Replay(AttemptOf(db, open, cur, reach, env, attempt).trace, db);
      && FailedTable(db.hosts, after.hosts, ElectionOf(db.hosts, cur, env.tie(attempt)).leader.value.id)
      && ValidIds(after)
      && after == db.(hosts := after.hosts)
  {
    hide *;
    AttemptShape(db, open, cur, reach, env, attempt);
    var e := ElectionOf(db.hosts, cur, env.tie(attempt));
    var t := Opening(e, reach) + OwnEffects(e.leader.value, env, attempt);
    assert AttemptOf(db, open, cur, reach, env, attempt).trace == t + [] == t;
    ValidIsDistinct(db);
    forall i | 0 <= i < |db.hosts|
      ensures FailedRow(db.hosts[i], RowAfterAll(t, db.hosts[i]), e.leader.value.id)
    {
      FindHostIsRow(db.hosts, i);
      AttemptRow(e, reach, env, attempt, db.hosts[i]);
    }
    FailureStoresNone(e, reach, env, attempt);
    NoLeaderStored(t, db.leader);
    TableFromRows(t, db, e.leader.value.id);
  }

  lemma ValidIsDistinct(db: Db)
    requires ValidIds(db)
    ensures DistinctIds(db.hosts)
  {
  }

  lemma FailureStoresNone(e: ElectionResult, reach: set<nat>, env: Env, attempt: nat)
    requires e.leader.Some?
    ensures forall x :: x in Opening(e, reach) + OwnEffects(e.leader.value, env, attempt) ==> !x.LeaderStored?
  {
    hide ConnectExit;
  }

  lemma TableFromRows(t: seq<Effect>, db: Db, tried: nat)
    requires ValidIds(db) && LeaderAfterAll(t, db.leader) == db.leader
    requires forall i :: 0 <= i < |db.hosts| ==> FailedRow(db.hosts[i], RowAfterAll(t, db.hosts[i]), tried)
    ensures
      var after := Replay(t, db);
      FailedTable(db.hosts, after.hosts, tried) && ValidIds(after) && after == db.(hosts := after.hosts)
  {
    hide RowAfterAll, LeaderAfterAll, ValidIds, FailedRow;
  }

  lemma StillReachable(before: seq<Host>, after: seq<Host>, tried: nat, reach: set<nat>)
    requires FailedTable(before, after, tried) && ReadyReachable(before, reach)
    ensures ReadyReachable(after, reach)
  {
    forall h | h in after && h.state == Ready ensures h.id in reach {
      var i :| 0 <= i < |after| && after[i] == h;
      assert before[i] in before;
    }
  }

  // Putting the host that was tried in front of an order of the rest.
  lemma OrderCons(before: seq<Host>, after: seq<Host>, l: Host, rest: seq<Host>)
    requires DistinctIds(before) && IsBestReady(l, before)
    requires FailedTable(before, after, l.id) && PriorityOrder(rest, after)
    ensures PriorityOrder([l] + rest, before)
  {
    var order := [l] + rest;
    forall h ensures h in order <==> h in before && h.state == Ready {
      if h in before && h.state == Ready && h != l {
        var i :| 0 <= i < |before| && before[i] == h;
        assert after[i] == h;
      }
      if h in rest {
        var i :| 0 <= i < |after| && after[i] == h;
        assert before[i] == h;
      }
    }
    forall i, j | 0 <= i < j < |order|
      ensures order[i].priority <= order[j].priority && order[i].id != order[j].id
    {
      assert order[j] == rest[j - 1] && order[j] in before;
      if i > 0 {
        assert order[i] == rest[i - 1];
      } else {
        var k :| 0 <= k < |after| && after[k] == order[j];
      }
    }
  }

  lemma OrderOf(hosts: seq<Host>, tie: TieBreak) returns (order: seq<Host>)
    requires DistinctIds(hosts)
    ensures PriorityOrder(order, hosts)
    ensures order == SortSlice(ReadyHosts(hosts), tie)
  {
    ReadyDistinct(hosts);
    var ready := ReadyHosts(hosts);
    order := SortSlice(ready, tie);
    SortSliceSorts(ready, tie);
    SortKeepsDistinct(ready, tie);
  }

  lemma {:induction false} ReadyDistinct(hosts: seq<Host>)
    requires DistinctIds(hosts)
    ensures DistinctIds(ReadyHosts(hosts))
  {
    if |hosts| > 0 {
      ReadyDistinct(hosts[..|hosts| - 1]);
    }
  }

  lemma {:induction false} SortKeepsDistinct(hosts: seq<Host>, tie: TieBreak)
    requires DistinctIds(hosts)
    ensures DistinctIds(SortSlice(hosts, tie))
  {
    if |hosts| > 0 {
      SortKeepsDistinct(hosts[1..], tie);
      SortSliceSorts(hosts[1..], tie);
      InsertKeepsDistinct(hosts[0], SortSlice(hosts[1..], tie), tie);
    }
  }

  lemma {:induction false} InsertKeepsDistinct(h: Host, hosts: seq<Host>, tie: TieBreak)
    requires DistinctIds(hosts) && forall g :: g in hosts ==> g.id != h.id
    requires Ordered(hosts, tie)
    ensures DistinctIds(Insert(h, hosts, tie))
  {
    if |hosts| > 0 && !Before(h, hosts[0], tie) {
      var rest := hosts[1..];
      forall i, j | 0 <= i < j < |rest| ensures Before(rest[i], rest[j], tie) {
        assert rest[i] == hosts[i + 1] && rest[j] == hosts[j + 1];
      }
      InsertKeepsDistinct(h, rest, tie);
      InsertSorts(h, rest, tie);
      ConsDistinct(hosts[0], Insert(h, rest, tie));
    } else {
      ConsDistinct(h, hosts);
    }
  }

  lemma ConsDistinct(h: Host, hosts: seq<Host>)
    requires DistinctIds(hosts) && forall g :: g in hosts ==> g.id != h.id
    ensures DistinctIds([h] + hosts)
  {
  }

  // The retry loop, from any attempt that elects a new leader, does what the
  // walk along some priority order does: it tries the hosts of the order up to
  // and including the first that connects, kills the ones before it, and
  // commits it; if none connects within the budget it commits nothing.
  function Walk(order: seq<Host>, env: Env, attempt: nat): Report
    decreases |order|
  {
    if Budget(order, attempt) == 0 then Report([], [], [])
    else if ConnectExit(order[0], env, attempt) == 0 then Report([order[0].id], [], [order[0].id])
    else
      var rest := Walk(order[1..], env, attempt + 1);
      Report([order[0].id] + rest.tried, [order[0].id] + rest.killed, rest.committed)
  }

  ghost predicate Follows(t: seq<Effect>, order: seq<Host>, env: Env, attempt: nat) {
    ReportOf(t) == Walk(order, env, attempt)
  }

  // Whether the breaker is open after the loop: it is asked again only if the
  // order runs out before the attempts do.
  function OpenAfter(order: seq<Host>, hostCount: nat, open: bool, env: Env, attempt: nat): bool {
    if FailuresFirst(order, env, attempt) == |order| && attempt + |order| < MAX_ELECT_RETRIES then hostCount > 0
    else open
  }

  lemma {:induction false} LoopWalks(db: Db, open: bool, cur: nat, reach: set<nat>, env: Env, attempt: nat)
    returns (order: seq<Host>, run: LoopRun)
    requires ValidIds(db) && DistinctIds(db.hosts) && ReadyReachable(db.hosts, reach) && attempt <= MAX_ELECT_RETRIES
    requires AnyReady(db.hosts) && attempt < MAX_ELECT_RETRIES ==> ElectionOf(db.hosts, cur, env.tie(attempt)).changed
    ensures PriorityOrder(order, db.hosts)
    ensures run == ElectLoop(db, open, cur, reach, env, attempt)
    ensures Follows(run.trace, order, env, attempt)
    ensures run.open == OpenAfter(order, |db.hosts|, open, env, attempt)
    decreases MAX_ELECT_RETRIES - attempt
  {
    hide *;
    run := ElectLoop(db, open, cur, reach, env, attempt);
    if attempt == MAX_ELECT_RETRIES || !AnyReady(db.hosts) {
      order := LoopEnds(db, open, cur, reach, env, attempt);
    } else if AttemptOf(db, open, cur, reach, env, attempt).over {
      order := LoopCommits(db, open, cur, reach, env, attempt);
    } else {
      var l, a, after := AttemptFails(db, open, cur, reach, env, attempt);
      var rest, u := LoopWalks(after, a.open, 0, reach, env, attempt + 1);
      OrderCons(db.hosts, after.hosts, l, rest);
      order := [l] + rest;
      WalksCons(l, rest, a.trace, u.trace, env, attempt);
    }
  }

  lemma LoopEnds(db: Db, open: bool, cur: nat, reach: set<nat>, env: Env, attempt: nat) returns (order: seq<Host>)
    requires ValidIds(db) && (attempt == MAX_ELECT_RETRIES || (attempt < MAX_ELECT_RETRIES && !AnyReady(db.hosts)))
    ensures PriorityOrder(order, db.hosts)
    ensures Follows(ElectLoop(db, open, cur, reach, env, attempt).trace, order, env, attempt)
    ensures ElectLoop(db, open, cur, reach, env, attempt).open == OpenAfter(order, |db.hosts|, open, env, attempt)
  {
    order := OrderOf(db.hosts, id => 0);
    if |order| > 0 {
      assert order[0] in order;
    }
    WalksNowhere(order, ElectLoop(db, open, cur, reach, env, attempt).trace, env, attempt);
  }

  lemma LoopCommits(db: Db, open: bool, cur: nat, reach: set<nat>, env: Env, attempt: nat) returns (order: seq<Host>)
    requires ValidIds(db) && ReadyReachable(db.hosts, reach) && attempt < MAX_ELECT_RETRIES
    requires ElectionOf(db.hosts, cur, env.tie(attempt)).changed
    requires AttemptOf(db, open, cur, reach, env, attempt).over
    ensures PriorityOrder(order, db.hosts)
    ensures Follows(ElectLoop(db, open, cur, reach, env, attempt).trace, order, env, attempt)
    ensures ElectLoop(db, open, cur, reach, env, attempt).open == OpenAfter(order, |db.hosts|, open, env, attempt)
  {
    AttemptSelects(db, open, cur, reach, env, attempt);
    var l := ElectionOf(db.hosts, cur, env.tie(attempt)).leader.value;
    order := OrderOf(db.hosts, Favouring(l.id));
    AnyBestReadyCanWin(db.hosts, cur, l);
    WalksOnce(order, AttemptOf(db, open, cur, reach, env, attempt).trace, env, attempt);
  }

  lemma AttemptFails(db: Db, open: bool, cur: nat, reach: set<nat>, env: Env, attempt: nat)
    returns (l: Host, a: Attempt, after: Db)
    requires ValidIds(db) && ReadyReachable(db.hosts, reach) && attempt < MAX_ELECT_RETRIES
    requires ElectionOf(db.hosts, cur, env.tie(attempt)).changed
    requires !AttemptOf(db, open, cur, reach, env, attempt).over
    ensures Some(l) == ElectionOf(db.hosts, cur, env.tie(attempt)).leader && IsBestReady(l, db.hosts)
    ensures a == AttemptOf(db, open, cur, reach, env, attempt) && after == Replay(a.trace, db)
    ensures ElectLoop(db, open, cur, reach, env, attempt).trace ==
      a.trace + ElectLoop(after, a.open, 0, reach, env, attempt + 1).trace
    ensures ElectLoop(db, open, cur, reach, env, attempt).open ==
      ElectLoop(after, a.open, 0, reach, env, attempt + 1).open
    ensures |after.hosts| == |db.hosts|
    ensures ConnectExit(l, env, attempt) != 0 && a.open == open
    ensures ReportOf(a.trace) == Report([l.id], [l.id], [])
    ensures FailedTable(db.hosts, after.hosts, l.id) && after == db.(hosts := after.hosts)
    ensures ValidIds(after) && DistinctIds(after.hosts) && ReadyReachable(after.hosts, reach)
    ensures AnyReady(after.hosts) && attempt + 1 < MAX_ELECT_RETRIES ==>
      ElectionOf(after.hosts, 0, env.tie(attempt + 1)).changed
  {
    hide *;
    a := AttemptOf(db, open, cur, reach, env, attempt);
    l := ElectionOf(db.hosts, cur, env.tie(attempt)).leader.value;
    after := Replay(a.trace, db);
    AttemptShape(db, open, cur, reach, env, attempt);
    AttemptSelects(db, open, cur, reach, env, attempt);
    FailedAttempt(db, open, cur, reach, env, attempt);
    FailedTableParts(db.hosts, after.hosts, l.id);
    StillReachable(db.hosts, after.hosts, l.id, reach);
    ValidIsDistinct(after);
    LoopUnfold(db, open, cur, reach, env, attempt);
    ElectsAnew(after, env.tie(attempt + 1));
  }

  lemma FailedTableParts(before: seq<Host>, after: seq<Host>, tried: nat)
    requires FailedTable(before, after, tried)
    ensures |after| == |before|
  {
  }

  lemma LoopUnfold(db: Db, open: bool, cur: nat, reach: set<nat>, env: Env, attempt: nat)
    requires attempt < MAX_ELECT_RETRIES
    ensures
      var a := AttemptOf(db, open, cur, reach, env, attempt);
      var rest := ElectLoop(Replay(a.trace, db), a.open, 0, reach, env, attempt + 1);
      ElectLoop(db, open, cur, reach, env, attempt) ==
        if a.over then LoopRun(a.trace, a.open) else LoopRun(a.trace + rest.trace, rest.open)
  {
    hide AttemptOf, Replay;
  }

  // Once nobody is taken for the leader, whoever is elected is new.
  lemma ElectsAnew(db: Db, tie: TieBreak)
    requires ValidIds(db)
    ensures AnyReady(db.hosts) ==> ElectionOf(db.hosts, 0, tie).changed
  {
    hide ElectionOf, AnyReady;
  }

  lemma WalksNowhere(order: seq<Host>, trace: seq<Effect>, env: Env, attempt: nat)
    requires Budget(order, attempt) == 0
    requires forall e :: e in trace ==> IsCircuit(e)
    ensures Follows(trace, order, env, attempt)
  {
    SelectNothing(trace, TriedBy);
    SelectNothing(trace, StoredBy);
    SelectNothing(trace, KilledByConnect);
  }

  lemma WalksOnce(order: seq<Host>, trace: seq<Effect>, env: Env, attempt: nat)
    requires Budget(order, attempt) > 0 && ConnectExit(order[0], env, attempt) == 0
    requires ReportOf(trace) == Report([order[0].id], [], [order[0].id])
    ensures Follows(trace, order, env, attempt)
  {
  }

  lemma WalksCons(l: Host, rest: seq<Host>, t: seq<Effect>, u: seq<Effect>, env: Env, attempt: nat)
    requires attempt < MAX_ELECT_RETRIES && ConnectExit(l, env, attempt) != 0
    requires ReportOf(t) == Report([l.id], [l.id], [])
    requires Follows(u, rest, env, attempt + 1)
    ensures Follows(t + u, [l] + rest, env, attempt)
    ensures forall n: nat, open: bool ::
      OpenAfter([l] + rest, n, open, env, attempt) == OpenAfter(rest, n, open, env, attempt + 1)
  {
    assert ([l] + rest)[1..] == rest;
    SelectConcat(t, u, TriedBy);
    SelectConcat(t, u, StoredBy);
    SelectConcat(t, u, KilledByConnect);
  }

  lemma SelectOne(e: Effect, f: Effect -> Option<nat>)
    ensures Select([e], f) == if f(e).Some? then [f(e).value] else []
  {
    assert [e][1..] == [];
  }

  lemma SelectAttempt(pre: seq<Effect>, own: seq<Effect>, dns: seq<Effect>, commit: seq<Effect>,
        f: Effect -> Option<nat>)
    requires forall x :: x in pre || x in dns ==> f(x).None?
    ensures Select(pre + own, f) == Select(own, f)
    ensures Select(pre + own + dns + commit, f) == Select(own, f) + Select(commit, f)
  {
    hide Select;
    SelectNothing(pre, f);
    SelectNothing(dns, f);
    SelectConcat(pre, own, f);
    SelectConcat(pre + own, dns, f);
    SelectConcat(pre + own + dns, commit, f);
  }

  lemma SelectCommit(l: Host, dns: DnsRun)
    ensures Select(CommitEffects(l, dns), TriedBy) == []
    ensures Select(CommitEffects(l, dns), KilledByConnect) == []
    ensures Select(CommitEffects(l, dns), StoredBy) == [l.id]
  {
    hide Select;
    var t := CommitEffects(l, dns);
    SelectNothing(t, TriedBy);
    SelectNothing(t, KilledByConnect);
    assert t == t[..2] + [t[2]] + t[3..];
    SelectNothing(t[..2], StoredBy);
    SelectOne(t[2], StoredBy);
    SelectNothing(t[3..], StoredBy);
    SelectConcat(t[..2], [t[2]], StoredBy);
    SelectConcat(t[..2] + [t[2]], t[3..], StoredBy);
  }

  lemma SelectOwn(l: Host, env: Env, attempt: nat)
    ensures Select(OwnEffects(l, env, attempt), TriedBy) == [l.id]
    ensures Select(OwnEffects(l, env, attempt), StoredBy) == []
    ensures Select(OwnEffects(l, env, attempt), KilledByConnect) ==
      if ConnectExit(l, env, attempt) != 0 then [l.id] else []
  {
    hide Select, ConnectExit;
    var t := OwnEffects(l, env, attempt);
    SelectNothing(t, StoredBy);
    SelectOne(t[0], TriedBy);
    SelectOne(t[0], KilledByConnect);
    if |t| == 2 {
      assert t == [t[0]] + [t[1]];
      SelectOne(t[1], TriedBy);
      SelectOne(t[1], KilledByConnect);
      SelectConcat([t[0]], [t[1]], TriedBy);
      SelectConcat([t[0]], [t[1]], KilledByConnect);
    } else {
      assert t == [t[0]];
    }
  }

  // What the three readings find in one attempt.
  lemma AttemptSelects(db: Db, open: bool, cur: nat, reach: set<nat>, env: Env, attempt: nat)
    requires ReadyReachable(db.hosts, reach)
    requires ElectionOf(db.hosts, cur, env.tie(attempt)).changed
    ensures
      var l := ElectionOf(db.hosts, cur, env.tie(attempt)).leader.value;
      var a := AttemptOf(db, open, cur, reach, env, attempt);
      && a.over == (ConnectExit(l, env, attempt) == 0)
      && ReportOf(a.trace) == if a.over then Report([l.id], [], [l.id]) else Report([l.id], [l.id], [])
  {
    hide *;
    AttemptShape(db, open, cur, reach, env, attempt);
    var e := ElectionOf(db.hosts, cur, env.tie(attempt));
    DnsKinds(db, e.leader.value, env);
    OpeningTouches(e, reach);
    PartsSelect(Opening(e, reach), e.leader.value, env, attempt, DnsOf(db, e.leader.value, env));
  }

  lemma OpeningTouches(e: ElectionResult, reach: set<nat>)
    ensures forall x :: x in Opening(e, reach) ==> x.LeaderElected? || x.Disconnected? || x.CommandsBlanked?
  {
  }

  lemma PartsSelect(pre: seq<Effect>, l: Host, env: Env, attempt: nat, dns: DnsRun)
    requires forall x :: x in pre ==> x.LeaderElected? || x.Disconnected? || x.CommandsBlanked?
    requires forall x :: x in dns.trace ==> IsDns(x)
    ensures
      var over := ConnectExit(l, env, attempt) == 0;
      var t := pre + OwnEffects(l, env, attempt) + if over then dns.trace + CommitEffects(l, dns) else [];
      ReportOf(t) == if over then Report([l.id], [], [l.id]) else Report([l.id], [l.id], [])
  {
    hide Select, OwnEffects, CommitEffects, ConnectExit;
    var own := OwnEffects(l, env, attempt);
    assert pre + own + [] == pre + own;
    assert pre + own + (dns.trace + CommitEffects(l, dns)) == pre + own + dns.trace + CommitEffects(l, dns);
    SelectOwn(l, env, attempt);
    SelectCommit(l, dns);
    SelectAttempt(pre, own, dns.trace, CommitEffects(l, dns), TriedBy);
    SelectAttempt(pre, own, dns.trace, CommitEffects(l, dns), StoredBy);
    SelectAttempt(pre, own, dns.trace, CommitEffects(l, dns), KilledByConnect);
  }

  // The breaker's events and notifications.
  predicate IsCircuit(e: Effect) {
    e.CircuitOpened? || e.CircuitClosed? || e == Notified(CircuitOpenNotice) || e == Notified(CircuitCloseNotice)
  }

  predicate IsDns(e: Effect) {
    e.DnsUpdated? || e.RemoteSynced? || e.DnsVerified?
  }

  lemma {:induction false} RuleDnsKinds(rules: seq<Rule>, i: nat, leader: Host, env: Env)
    ensures forall e :: e in RuleDns(rules, i, leader, env).trace ==> IsDns(e)
    decreases |rules| - i
  {
    if i < |rules| {
      RuleDnsKinds(rules, i + 1, leader, env);
    }
  }

  lemma DnsKinds(db: Db, leader: Host, env: Env)
    ensures forall e :: e in DnsOf(db, leader, env).trace ==> IsDns(e)
  {
    RuleDnsKinds(db.rules, 0, leader, env);
  }

  // The effects of the whole loop

  // The only states the loop changes are those of Ready hosts that failed to
  // connect; it disconnects, and blanks the commands of, no one but the leader
  // it starts from, and blanks them only if that host is reachable and not Ready.
  ghost predicate LoopEffect(e: Effect, db: Db, cur: nat, reach: set<nat>) {
    match e
    case StateChanged(_, from, to, cause) => from == Ready && to == Dead && cause == ConnectFailed
    case Disconnected(id) => id == cur && cur in reach && FindHost(db.hosts, cur).Some?
    case CommandsBlanked(id) =>
      id == cur && cur in reach && FindHost(db.hosts, cur).Some? && FindHost(db.hosts, cur).value.state != Ready
    case _ => true
  }

  ghost predicate LoopEffects(t: seq<Effect>, db: Db, cur: nat, reach: set<nat>) {
    forall e :: e in t ==> LoopEffect(e, db, cur, reach)
  }

  lemma IdleAttempt(db: Db, open: bool, cur: nat, reach: set<nat>, env: Env, attempt: nat)
    requires !ElectionOf(db.hosts, cur, env.tie(attempt)).changed
    ensures AttemptOf(db, open, cur, reach, env, attempt).over
    ensures forall e :: e in AttemptOf(db, open, cur, reach, env, attempt).trace ==> IsCircuit(e)
  {
  }

  lemma OpeningKind(db: Db, cur: nat, reach: set<nat>, tie: TieBreak)
    requires ElectionOf(db.hosts, cur, tie).changed
    ensures LoopEffects(Opening(ElectionOf(db.hosts, cur, tie), reach), db, cur, reach)
  {
    hide ElectionOf;
  }

  lemma OwnKind(l: Host, env: Env, attempt: nat, db: Db, cur: nat, reach: set<nat>)
    ensures LoopEffects(OwnEffects(l, env, attempt), db, cur, reach)
  {
  }

  lemma CommitKind(l: Host, dns: DnsRun, db: Db, cur: nat, reach: set<nat>)
    requires forall x :: x in dns.trace ==> IsDns(x)
    ensures LoopEffects(dns.trace + CommitEffects(l, dns), db, cur, reach)
  {
  }

  lemma AttemptEffectsKind(db: Db, open: bool, cur: nat, reach: set<nat>, env: Env, attempt: nat)
    requires ReadyReachable(db.hosts, reach)
    ensures LoopEffects(AttemptOf(db, open, cur, reach, env, attempt).trace, db, cur, reach)
  {
    var e := ElectionOf(db.hosts, cur, env.tie(attempt));
    var t := AttemptOf(db, open, cur, reach, env, attempt).trace;
    if !e.changed {
      hide AttemptOf, ElectionOf;
      IdleAttempt(db, open, cur, reach, env, attempt);
    } else {
      hide *;
      AttemptShape(db, open, cur, reach, env, attempt);
      var dns := DnsOf(db, e.leader.value, env);
      DnsKinds(db, e.leader.value, env);
      OpeningKind(db, cur, reach, env.tie(attempt));
      OwnKind(e.leader.value, env, attempt, db, cur, reach);
      CommitKind(e.leader.value, dns, db, cur, reach);
      var pre := Opening(e, reach) + OwnEffects(e.leader.value, env, attempt);
      assert pre + [] == pre;
      LoopEffectsConcat(Opening(e, reach), OwnEffects(e.leader.value, env, attempt), db, cur, reach);
      LoopEffectsConcat(pre, dns.trace + CommitEffects(e.leader.value, dns), db, cur, reach);
    }
  }

  lemma {:induction false} LoopEffectsKind(db: Db, open: bool, cur: nat, reach: set<nat>, env: Env, attempt: nat)
    requires ValidIds(db) && ReadyReachable(db.hosts, reach)
    ensures LoopEffects(ElectLoop(db, open, cur, reach, env, attempt).trace, db, cur, reach)
    decreases MAX_ELECT_RETRIES - attempt
  {
    if attempt < MAX_ELECT_RETRIES {
      AttemptEffectsKind(db, open, cur, reach, env, attempt);
      if !AttemptOf(db, open, cur, reach, env, attempt).over {
        LoopEffectsStep(db, open, cur, reach, env, attempt);
      }
    }
  }

  lemma {:induction false} LoopEffectsStep(db: Db, open: bool, cur: nat, reach: set<nat>, env: Env, attempt: nat)
    requires ValidIds(db) && ReadyReachable(db.hosts, reach) && attempt < MAX_ELECT_RETRIES
    requires LoopEffects(AttemptOf(db, open, cur, reach, env, attempt).trace, db, cur, reach)
    requires !AttemptOf(db, open, cur, reach, env, attempt).over
    ensures LoopEffects(ElectLoop(db, open, cur, reach, env, attempt).trace, db, cur, reach)
    decreases MAX_ELECT_RETRIES - attempt, 0
  {
    hide *;
    if !ElectionOf(db.hosts, cur, env.tie(attempt)).changed {
      IdleAttempt(db, open, cur, reach, env, attempt);
    }
    var l, a, after := AttemptFails(db, open, cur, reach, env, attempt);
    LoopEffectsKind(after, a.open, 0, reach, env, attempt + 1);
    NoHostZero(after, ElectLoop(after, a.open, 0, reach, env, attempt + 1).trace, db, cur, reach);
    LoopEffectsConcat(a.trace, ElectLoop(after, a.open, 0, reach, env, attempt + 1).trace, db, cur, reach);
  }

  lemma LoopEffectsConcat(t: seq<Effect>, u: seq<Effect>, db: Db, cur: nat, reach: set<nat>)
    requires LoopEffects(t, db, cur, reach) && LoopEffects(u, db, cur, reach)
    ensures LoopEffects(t + u, db, cur, reach)
  {
  }

  lemma NoHostZero(db: Db, t: seq<Effect>, db': Db, cur: nat, reach: set<nat>)
    requires ValidIds(db) && LoopEffects(t, db, 0, reach)
    ensures LoopEffects(t, db', cur, reach)
    ensures forall e :: e in t ==> !e.Disconnected? && !e.CommandsBlanked?
  {
  }
}
