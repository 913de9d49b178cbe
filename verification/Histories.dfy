// What holds of whole histories: the breaker's audit events, the hysteresis of
// the health checks, and how often a host can flap.
module Histories {
  import opened Text
  import opened Models
  import opened StateMachines
  import opened Elections
  import opened Circuits
  import opened Cycles
  import opened Pollers
  import opened CheckPhase
  import opened Failover
  import opened CycleTheorems
  import opened Handlers
  import opened Runs

  // The circuit breaker

  // The breaker's audit events, true for open.
  function CircuitEvents(t: seq<Effect>): seq<bool> {
    if |t| == 0 then []
    else
      CircuitEvents(t[..|t| - 1]) +
      match t[|t| - 1]
      case CircuitOpened => [true]
      case CircuitClosed => [false]
      case _ => []
  }

  lemma {:induction false} CircuitEventsConcat(t: seq<Effect>, u: seq<Effect>)
    ensures CircuitEvents(t + u) == CircuitEvents(t) + CircuitEvents(u)
    decreases |u|
  {
    if |u| == 0 {
      assert t + u == t;
    } else {
      var v := u[..|u| - 1];
      assert (t + u)[..|t + u| - 1] == t + v;
      CircuitEventsConcat(t, v);
    }
  }

  lemma {:induction false} NoCircuitEvents(t: seq<Effect>)
    requires forall e :: e in t ==> !e.CircuitOpened? && !e.CircuitClosed?
    ensures CircuitEvents(t) == []
  {
    if |t| > 0 {
      assert t[|t| - 1] in t && forall e :: e in t[..|t| - 1] ==> e in t;
      NoCircuitEvents(t[..|t| - 1]);
    }
  }

  // Open and close alternate, open first, and the last event is the present state.
  ghost predicate Alternating(events: seq<bool>, open: bool) {
    && (forall i :: 0 <= i < |events| ==> events[i] == (i % 2 == 0))
    && (open <==> |events| % 2 == 1)
    && (open <==> |events| > 0 && events[|events| - 1])
  }

  lemma FlipKeeps(events: seq<bool>, wasOpen: bool, open: bool, t: seq<Effect>)
    requires Alternating(events, wasOpen)
    requires CircuitEvents(t) == CircuitEvents(CircuitEffects(wasOpen, open))
    ensures Alternating(events + CircuitEvents(t), open)
  {
    var u := CircuitEffects(wasOpen, open);
    if |u| > 0 {
      assert u[..0] == [];
    }
  }

  lemma {:induction false} LoopAlternates(db: Db, open: bool, cur: nat, reach: set<nat>, env: Env, attempt: nat,
        events: seq<bool>)
    requires Alternating(events, open)
    ensures
      var run := ElectLoop(db, open, cur, reach, env, attempt);
      Alternating(events + CircuitEvents(run.trace), run.open)
    decreases MAX_ELECT_RETRIES - attempt
  {
    hide *;
    if attempt >= MAX_ELECT_RETRIES {
      LoopOver(db, open, cur, reach, env, attempt, events);
    } else {
      var a := AttemptOf(db, open, cur, reach, env, attempt);
      AttemptAlternates(db, open, cur, reach, env, attempt, events);
      LoopUnfold(db, open, cur, reach, env, attempt);
      if !a.over {
        LoopAlternates(Replay(a.trace, db), a.open, 0, reach, env, attempt + 1, events + CircuitEvents(a.trace));
        var u := ElectLoop(Replay(a.trace, db), a.open, 0, reach, env, attempt + 1).trace;
        CircuitEventsConcat(a.trace, u);
        assert events + CircuitEvents(a.trace) + CircuitEvents(u) ==
          events + (CircuitEvents(a.trace) + CircuitEvents(u));
      }
    }
  }

  lemma LoopOver(db: Db, open: bool, cur: nat, reach: set<nat>, env: Env, attempt: nat, events: seq<bool>)
    requires attempt >= MAX_ELECT_RETRIES && Alternating(events, open)
    ensures
      var run := ElectLoop(db, open, cur, reach, env, attempt);
      Alternating(events + CircuitEvents(run.trace), run.open)
  {
    hide Alternating;
    assert events + [] == events;
  }

  lemma AttemptAlternates(db: Db, open: bool, cur: nat, reach: set<nat>, env: Env, attempt: nat, events: seq<bool>)
    requires Alternating(events, open)
    ensures
      var a := AttemptOf(db, open, cur, reach, env, attempt);
      Alternating(events + CircuitEvents(a.trace), a.open)
  {
    var a := AttemptOf(db, open, cur, reach, env, attempt);
    hide *;
    if ElectionOf(db.hosts, cur, env.tie(attempt)).leader.None? {
      AttemptAsksBreaker(db, open, cur, reach, env, attempt);
      FlipKeeps(events, open, a.open, a.trace);
    } else {
      AttemptIsSilent(db, open, cur, reach, env, attempt);
      NoCircuitEvents(a.trace);
      assert events + [] == events;
    }
  }

  lemma AttemptAsksBreaker(db: Db, open: bool, cur: nat, reach: set<nat>, env: Env, attempt: nat)
    requires ElectionOf(db.hosts, cur, env.tie(attempt)).leader.None?
    ensures
      var a := AttemptOf(db, open, cur, reach, env, attempt);
      CircuitEvents(a.trace) == CircuitEvents(CircuitEffects(open, a.open))
  {
    hide ElectionOf, ShouldOpen;
    var a := AttemptOf(db, open, cur, reach, env, attempt);
    CircuitEventsConcat(CircuitEffects(open, a.open), [Notified(CircuitOpenNotice)]);
    NoCircuitEvents([Notified(CircuitOpenNotice)]);
  }

  lemma AttemptIsSilent(db: Db, open: bool, cur: nat, reach: set<nat>, env: Env, attempt: nat)
    requires ElectionOf(db.hosts, cur, env.tie(attempt)).leader.Some?
    ensures AttemptOf(db, open, cur, reach, env, attempt).open == open
    ensures forall e :: e in AttemptOf(db, open, cur, reach, env, attempt).trace ==>
      !e.CircuitOpened? && !e.CircuitClosed?
  {
    hide ElectionOf, DnsOf, ConnectExit, SwitchEffects, CommitEffects;
    var e := ElectionOf(db.hosts, cur, env.tie(attempt));
    if e.changed {
      SwitchIsSilent(e, reach, env, attempt);
      DnsKinds(db, e.leader.value, env);
      CommitIsSilent(e.leader.value, DnsOf(db, e.leader.value, env));
    }
  }

  lemma SwitchIsSilent(e: ElectionResult, reach: set<nat>, env: Env, attempt: nat)
    requires e.leader.Some?
    ensures forall x :: x in SwitchEffects(e, reach, env, attempt) ==> !x.CircuitOpened? && !x.CircuitClosed?
  {
    hide ConnectExit;
  }

  lemma CommitIsSilent(l: Host, dns: DnsRun)
    ensures forall x :: x in CommitEffects(l, dns) ==> !x.CircuitOpened? && !x.CircuitClosed?
  {
  }

  lemma CycleAlternates(w: World, env: Env, events: seq<bool>)
    requires Alternating(events, w.open)
    ensures Alternating(events + CircuitEvents(CycleTrace(w, env)), Cycle(w, env).open)
  {
    var checks, breaker, run := CheckTrace(w.db.hosts, w.streaks, env), BreakerTrace(w, env), CycleLoop(w, env);
    var open := ShouldOpen(CheckedDb(w, env).hosts);
    hide *;
    ChecksAreSilent(w, env);
    BreakerFlips(w, env, events);
    CycleIs(w, env);
    var soFar := events + CircuitEvents(breaker);
    if open {
      assert soFar + [] == soFar;
      NoCircuitEvents([]);
    } else {
      LoopAlternates(CheckedDb(w, env), false, CheckedDb(w, env).leader,
                     ReachableIds(w.db.hosts, w.streaks, env), env, 0, soFar);
    }
    CircuitEventsConcat(checks, breaker);
    CircuitEventsConcat(checks + breaker, run.trace);
    assert events + ([] + CircuitEvents(breaker) + CircuitEvents(run.trace)) == soFar + CircuitEvents(run.trace);
  }

  lemma ChecksAreSilent(w: World, env: Env)
    ensures CircuitEvents(CheckTrace(w.db.hosts, w.streaks, env)) == []
  {
    hide CheckEffects, CheckedRow;
    CheckTraceKind(w.db.hosts, w.streaks, env);
    NoCircuitEvents(CheckTrace(w.db.hosts, w.streaks, env));
  }

  lemma BreakerFlips(w: World, env: Env, events: seq<bool>)
    requires Alternating(events, w.open)
    ensures Alternating(events + CircuitEvents(BreakerTrace(w, env)), ShouldOpen(CheckedDb(w, env).hosts))
  {
    hide Alternating, CheckedDb, ShouldOpen;
    var open := ShouldOpen(CheckedDb(w, env).hosts);
    var u := BreakerTrace(w, env)[|CircuitEffects(w.open, open)|..];
    assert BreakerTrace(w, env) == CircuitEffects(w.open, open) + u;
    CircuitEventsConcat(CircuitEffects(w.open, open), u);
    NoCircuitEvents(u);
    FlipKeeps(events, w.open, open, BreakerTrace(w, env));
  }

  predicate Stops(step: Step) {
    step.Restart? || step.Crash?
  }

  // The breaker once a step has had its effects, before a stop forgets it.
  function OpenAfterEffects(w: World, step: Step): bool {
    match step
    case Restart => w.open
    case Crash(env, k) =>
      var events := CircuitEvents(CutTrace(w, env, k));
      if |events| == 0 then w.open else events[|events| - 1]
    case _ => Next(w, step).open
  }

  // A restart, or a crash inside a cycle, forgets that the breaker was open,
  // without a word in the audit log.
  ghost predicate StopsClosed(w0: World, steps: seq<Step>) {
    forall i :: 0 <= i < |steps| && Stops(steps[i]) ==> !OpenAfterEffects(Reach(w0, steps[..i]), steps[i])
  }

  // Over any run that begins with the breaker closed, the audit events
  // circuit_open and circuit_close alternate, beginning with circuit_open, and
  // the breaker is open exactly if the last one was circuit_open, exactly when no
  // restart and no crash finds the breaker open.
  lemma CircuitHistory(w0: World, steps: seq<Step>)
    requires !w0.open
    ensures Alternating(CircuitEvents(RunTrace(w0, steps)), Reach(w0, steps).open) <==> StopsClosed(w0, steps)
  {
    hide *;
    AlternatesOrNever(w0, steps);
    if !StopsClosed(w0, steps) {
      NeverIsNot(CircuitEvents(RunTrace(w0, steps)), Reach(w0, steps).open);
    }
  }

  // Two events out of step, or a closed breaker after one opening too many.
  ghost predicate OutOfStep(events: seq<bool>, open: bool) {
    (exists i :: 0 <= i < |events| && events[i] != (i % 2 == 0)) || (!open && |events| % 2 == 1)
  }

  lemma NeverIsNot(events: seq<bool>, open: bool)
    requires OutOfStep(events, open)
    ensures !Alternating(events, open)
  {
  }

  lemma {:induction false} AlternatesOrNever(w0: World, steps: seq<Step>)
    requires !w0.open
    ensures
      var events, open := CircuitEvents(RunTrace(w0, steps)), Reach(w0, steps).open;
      if StopsClosed(w0, steps) then Alternating(events, open) else OutOfStep(events, open)
  {
    hide *;
    if |steps| == 0 {
      NoEventsYet(w0);
    } else {
      var before, step := steps[..|steps| - 1], steps[|steps| - 1];
      var w, events := Reach(w0, before), CircuitEvents(RunTrace(w0, before));
      AlternatesOrNever(w0, before);
      OneMoreStep(w0, steps);
      CircuitEventsConcat(RunTrace(w0, before), TraceOf(w, step));
      if StopsClosed(w0, before) {
        StepAlternates(w, step, events);
      } else {
        StepFlips(w, step);
        StaysOutOfStep(events, CircuitEvents(TraceOf(w, step)), w.open, OpenAfterEffects(w, step));
      }
      StopTurns(w, step, events + CircuitEvents(TraceOf(w, step)));
    }
  }

  lemma NoEventsYet(w0: World)
    requires !w0.open
    ensures StopsClosed(w0, []) && Alternating(CircuitEvents(RunTrace(w0, [])), Reach(w0, []).open)
  {
  }

  lemma OneMoreStep(w0: World, steps: seq<Step>)
    requires |steps| > 0
    ensures
      var before, step := steps[..|steps| - 1], steps[|steps| - 1];
      && Reach(w0, steps) == Next(Reach(w0, before), step)
      && RunTrace(w0, steps) == RunTrace(w0, before) + TraceOf(Reach(w0, before), step)
      && (StopsClosed(w0, steps) <==>
           StopsClosed(w0, before) && (Stops(step) ==> !OpenAfterEffects(Reach(w0, before), step)))
  {
    hide Next, TraceOf, OpenAfterEffects;
    var n := |steps| - 1;
    assert forall i :: 0 <= i < n ==> steps[..n][..i] == steps[..i];
    if StopsClosed(w0, steps) {
      assert forall i :: 0 <= i < n ==> steps[..n][i] == steps[i];
    }
  }

  lemma StopTurns(w: World, step: Step, events: seq<bool>)
    ensures !Stops(step) ==> Next(w, step).open == OpenAfterEffects(w, step)
    ensures Stops(step) ==> !Next(w, step).open
    ensures Alternating(events, true) ==> OutOfStep(events, false)
    ensures OutOfStep(events, true) ==> OutOfStep(events, false)
  {
    hide Startup, Cycle, CutTrace, Replay, CreateHost, UpdateHost, DeleteHost, CreatePool, DeletePool;
    hide ForceState, RulesSaved;
  }

  lemma StepFlips(w: World, step: Step)
    ensures CircuitEvents(TraceOf(w, step)) == [] ==> OpenAfterEffects(w, step) == w.open
    ensures |CircuitEvents(TraceOf(w, step))| > 0 ==> CircuitEvents(TraceOf(w, step))[0] == !w.open
  {
    hide OpenAfterEffects, TraceOf;
    var base := if w.open then [true] else [];
    var u := CircuitEvents(TraceOf(w, step));
    StepAlternates(w, step, base);
    if |u| > 0 {
      assert (base + u)[|base|] == u[0];
    }
  }

  lemma StaysOutOfStep(events: seq<bool>, u: seq<bool>, open: bool, after: bool)
    requires OutOfStep(events, open)
    requires u == [] ==> after == open
    requires |u| > 0 ==> u[0] == !open
    ensures OutOfStep(events + u, after)
  {
    var all := events + u;
    if exists i :: 0 <= i < |events| && events[i] != (i % 2 == 0) {
      var i :| 0 <= i < |events| && events[i] != (i % 2 == 0);
      assert all[i] != (i % 2 == 0);
    } else if |u| > 0 {
      assert all[|events|] != (|events| % 2 == 0);
    }
  }

  lemma StepAlternates(w: World, step: Step, events: seq<bool>)
    requires Alternating(events, w.open)
    ensures Alternating(events + CircuitEvents(TraceOf(w, step)), OpenAfterEffects(w, step))
  {
    hide Alternating, Cycle, CycleTrace, CreateHost, UpdateHost, DeleteHost, CreatePool, DeletePool;
    hide ForceState, RulesSaved, Startup, CutTrace, Replay;
    if step.Poll? {
      CycleAlternates(w, step.env, events);
    } else if step.Crash? {
      CutAlternates(w, step.env, step.k, events);
    } else {
      NoCircuitEvents([]);
      assert events + [] == events;
    }
  }

  // A beginning of a cycle's events alternates as well.
  lemma CutAlternates(w: World, env: Env, k: nat, events: seq<bool>)
    requires Alternating(events, w.open)
    ensures Alternating(events + CircuitEvents(CutTrace(w, env, k)), OpenAfterEffects(w, Crash(env, k)))
  {
    hide Cycle, CycleTrace, CutTrace;
    var n := CutLength(w, env, k);
    var t := CycleTrace(w, env);
    CycleAlternates(w, env, events);
    assert t == t[..n] + t[n..];
    CircuitEventsConcat(t[..n], t[n..]);
    AlternatesUpTo(events, CircuitEvents(t[..n]), CircuitEvents(t[n..]), w.open, Cycle(w, env).open);
  }

  lemma AlternatesUpTo(events: seq<bool>, u: seq<bool>, v: seq<bool>, open: bool, after: bool)
    requires Alternating(events, open) && Alternating(events + (u + v), after)
    ensures Alternating(events + u, if |u| == 0 then open else u[|u| - 1])
  {
    var all := events + (u + v);
    assert forall i :: 0 <= i < |events + u| ==> (events + u)[i] == all[i];
    if |u| == 0 {
      assert events + u == events;
    } else {
      assert (events + u)[|events + u| - 1] == u[|u| - 1];
    }
  }

  // Exactly three hosts are Ready, none with a blank connect command, and the
  // three connects a cycle can make would all fail.
  predicate AllThreeFail(hosts: seq<Host>, env: Env) {
    && |ReadyHosts(hosts)| == 3
    && (forall h :: h in hosts && h.state == Ready ==> TrimSpace(h.preCommand) != "")
    && env.connectExit(0) != 0 && env.connectExit(1) != 0 && env.connectExit(2) != 0
  }

  // After a cycle the breaker tells the truth about the host table, except
  // exactly when the checks leave three Ready hosts, the election does not return
  // the stored leader, and all three fail to connect: the attempts are then used
  // up, so the breaker is not asked again and stays closed with no host Ready.
  lemma BreakerAfterCycle(w: World, env: Env)
    requires ValidIds(w.db)
    ensures
      var after := Cycle(w, env);
      && (after.open != ShouldOpen(after.db.hosts) <==>
           FirstElection(w, env).changed && AllThreeFail(CheckedDb(w, env).hosts, env))
      && (after.open ==> ShouldOpen(after.db.hosts))
  {
    hide *;
    if FirstElection(w, env).changed {
      var order := CycleWalks(w, env);
      CheckedRows(w, env);
      WalkLeaves(order, CheckedDb(w, env), Cycle(w, env).db, env);
      CheckedSomeone(w, env);
      BreakerByOrder(order, |w.db.hosts|, Cycle(w, env).db.hosts, Cycle(w, env).open, env);
      ValidIsDistinct(CheckedDb(w, env));
      OrderFails(order, CheckedDb(w, env).hosts, env);
    } else {
      UnchangedCycle(w, env);
    }
  }

  function Members(hosts: seq<Host>): set<Host> {
    set h | h in hosts
  }

  lemma {:induction false} DistinctMembers(hosts: seq<Host>)
    requires DistinctIds(hosts)
    ensures |Members(hosts)| == |hosts|
  {
    if |hosts| > 0 {
      var n := |hosts| - 1;
      DistinctMembers(hosts[..n]);
      assert hosts == hosts[..n] + [hosts[n]];
      assert Members(hosts) == Members(hosts[..n]) + {hosts[n]};
      assert hosts[n] !in hosts[..n];
    }
  }

  lemma OrderLength(order: seq<Host>, hosts: seq<Host>)
    requires DistinctIds(hosts) && PriorityOrder(order, hosts)
    ensures |order| == |ReadyHosts(hosts)|
    ensures forall h :: h in order <==> h in hosts && h.state == Ready
  {
    ReadyDistinct(hosts);
    hide AscendingPriority, DistinctIds, ReadyHosts;
    DistinctMembers(order);
    DistinctMembers(ReadyHosts(hosts));
    assert Members(order) == Members(ReadyHosts(hosts));
  }

  predicate AllCommands(hosts: seq<Host>) {
    forall h :: h in hosts ==> TrimSpace(h.preCommand) != ""
  }

  // A walk of three hosts that all fail, told without the order.
  lemma OrderFails(order: seq<Host>, hosts: seq<Host>, env: Env)
    requires DistinctIds(hosts) && PriorityOrder(order, hosts)
    ensures |order| == 3 && FailuresFirst(order, env, 0) == 3 <==> AllThreeFail(hosts, env)
  {
    OrderLength(order, hosts);
    hide DistinctIds, PriorityOrder, ReadyHosts, FailuresFirst, TrimSpace, ConnectExit;
    if |order| == 3 {
      ThreeFail(order, env);
      assert AllCommands(order) <==> forall h :: h in hosts && h.state == Ready ==> TrimSpace(h.preCommand) != "";
      ThreeCommands(order, env);
    }
  }

  lemma ThreeCommands(order: seq<Host>, env: Env)
    requires |order| == 3
    ensures
      ConnectExit(order[0], env, 0) != 0 && ConnectExit(order[1], env, 1) != 0 && ConnectExit(order[2], env, 2) != 0
      <==> AllCommands(order) && env.connectExit(0) != 0 && env.connectExit(1) != 0 && env.connectExit(2) != 0
  {
    hide TrimSpace;
    assert forall h :: h in order <==> h == order[0] || h == order[1] || h == order[2];
  }

  lemma ThreeFail(order: seq<Host>, env: Env)
    requires |order| == 3
    ensures FailuresFirst(order, env, 0) == 3 <==>
      ConnectExit(order[0], env, 0) != 0 && ConnectExit(order[1], env, 1) != 0 && ConnectExit(order[2], env, 2) != 0
  {
    hide ConnectExit, FailuresFirst;
    FailuresFirstIsLeast(order, env, 0);
  }

  lemma CheckedSomeone(w: World, env: Env)
    requires ValidIds(w.db) && FirstElection(w, env).changed
    ensures |w.db.hosts| > 0
  {
    hide CheckedDb;
    CheckedRows(w, env);
  }

  lemma BreakerByOrder(order: seq<Host>, n: nat, hosts: seq<Host>, open: bool, env: Env)
    requires open == OpenAfter(order, n, false, env, 0) && |hosts| == n > 0
    requires AnyReady(hosts) <==> FailuresFirst(order, env, 0) < |order|
    ensures open != ShouldOpen(hosts) <==> |order| == 3 && FailuresFirst(order, env, 0) == 3
    ensures open ==> ShouldOpen(hosts)
  {
    hide AnyReady, FailuresFirst;
    FailuresFirstIsLeast(order, env, 0);
  }

  // Someone is still Ready after the walk exactly if the order was not used up.
  lemma WalkLeaves(order: seq<Host>, before: Db, after: Db, env: Env)
    requires PriorityOrder(order, before.hosts)
    requires FinalRows(before, after, ReportAt(Ids(order), FailuresFirst(order, env, 0), Budget(order, 0)))
    ensures AnyReady(after.hosts) <==> FailuresFirst(order, env, 0) < |order|
    ensures |after.hosts| == |before.hosts|
  {
    var k := FailuresFirst(order, env, 0);
    hide FailuresFirst, Budget;
    var killed := Ids(order)[..k];
    forall m | 0 <= m < k ensures order[m].id in killed {
      assert killed[m] == order[m].id;
    }
    if k < |order| {
      var i :| 0 <= i < |before.hosts| && before.hosts[i] == order[k];
      assert FinalRow(before.hosts[i], after.hosts[i], killed);
      assert order[k].id !in killed;
      assert after.hosts[i] in after.hosts;
    } else {
      forall h | h in after.hosts ensures h.state != Ready {
        var i :| 0 <= i < |after.hosts| && after.hosts[i] == h;
        assert FinalRow(before.hosts[i], h, killed);
        if before.hosts[i].state == Ready {
          var m :| 0 <= m < |order| && order[m] == before.hosts[i];
        }
      }
    }
  }

  // Hysteresis

  predicate Present(hosts: seq<Host>, id: nat) {
    FindHost(hosts, id).Some?
  }

  // The snapshots of a host since the last start of the program, true for reachable: one for
  // every cycle in which it was in the table.
  ghost function History(w0: World, steps: seq<Step>, id: nat): seq<bool> {
    if |steps| == 0 then []
    else
      var before, step := steps[..|steps| - 1], steps[|steps| - 1];
      match step
      case Restart => []
      case Crash(_, _) => []
      case Poll(env) =>
        History(w0, before, id) +
        if Present(Reach(w0, before).db.hosts, id) then [BaseReachable(env.heartbeat(id))] else []
      case _ => History(w0, before, id)
  }

  // How many snapshots at the end of a history are all equal to b.
  function TrailingRun(history: seq<bool>, b: bool): nat {
    if |history| == 0 || history[|history| - 1] != b then 0
    else 1 + TrailingRun(history[..|history| - 1], b)
  }

  ghost predicate EndsWith(history: seq<bool>, k: nat, b: bool) {
    |history| >= k && forall i :: |history| - k <= i < |history| ==> history[i] == b
  }

  lemma {:induction false} TrailingRunIs(history: seq<bool>, b: bool, k: nat)
    ensures TrailingRun(history, b) >= k <==> EndsWith(history, k, b)
  {
    if k > 0 && |history| > 0 {
      var n := |history| - 1;
      TrailingRunIs(history[..n], b, k - 1);
      if history[n] == b && EndsWith(history[..n], k - 1, b) {
        forall i | |history| - k <= i < |history| ensures history[i] == b {
          assert i < n ==> history[..n][i] == b;
        }
      }
      if EndsWith(history, k, b) {
        assert history[n] == b;
        assert forall i :: n - (k - 1) <= i < n ==> history[..n][i] == history[i];
      }
    }
  }

  ghost predicate StreaksMatch(s: Streaks, history: seq<bool>, id: nat) {
    && Streak(s.fail, id) == TrailingRun(history, false)
    && Streak(s.recover, id) == TrailingRun(history, true)
  }

  lemma CycleStreaksMatch(w: World, env: Env, history: seq<bool>, id: nat)
    requires ValidIds(w.db) && StreaksMatch(w.streaks, history, id)
    ensures StreaksMatch(Cycle(w, env).streaks,
                         history + (if Present(w.db.hosts, id) then [BaseReachable(env.heartbeat(id))] else []), id)
  {
    hide BaseReachable, CycleTrace, Replay, CycleLoop;
    CycleStreaks(w, env);
    if Present(w.db.hosts, id) {
      CountHostsAt(w.streaks, w.db.hosts, env, FindHost(w.db.hosts, id).value);
      var longer := history + [BaseReachable(env.heartbeat(id))];
      assert longer[..|longer| - 1] == history;
    } else {
      CountHostsFrame(w.streaks, w.db.hosts, env, id);
      assert history + [] == history;
    }
  }

  // The streak maps hold the lengths of the trailing runs of failed and of
  // successful snapshots, over any run that starts with a fresh poller.
  lemma {:induction false} StreaksAreTrailingRuns(w0: World, steps: seq<Step>, id: nat)
    requires Sound(w0) && w0.streaks == NO_STREAKS
    ensures StreaksMatch(Reach(w0, steps).streaks, History(w0, steps, id), id)
  {
    if |steps| > 0 {
      var before, step := steps[..|steps| - 1], steps[|steps| - 1];
      StreaksAreTrailingRuns(w0, before, id);
      RunKeepsSound(w0, before);
      SoundParts(Reach(w0, before));
      if step.Poll? {
        hide Cycle, StreaksMatch, Sound;
        CycleStreaksMatch(Reach(w0, before), step.env, History(w0, before, id), id);
      } else {
        hide Cycle, CreateHost, UpdateHost, DeleteHost, CreatePool, DeletePool, ForceState, RulesSaved, Startup, Sound;
        hide CutTrace, Replay;
      }
    }
  }

  // What the check phase of a cycle decides for a host, in terms of its whole
  // history up to and including this cycle's snapshot: a host that is not Dead
  // dies exactly if its last three snapshots failed; a Dead one becomes Ready
  // exactly if its last two succeeded and its traffic is within the threshold,
  // and stays Dead otherwise.
  lemma ExactHysteresis(w0: World, steps: seq<Step>, env: Env, h: Host)
    requires Sound(w0) && w0.streaks == NO_STREAKS
    ensures
      var w := Reach(w0, steps);
      var history := History(w0, steps + [Poll(env)], h.id);
      var r := ResultOf(h, w.streaks, env);
      var after := CheckedRow(h, w.streaks, env).state;
      h in w.db.hosts ==>
        && CheckedRow(h, w.streaks, env) in CheckedDb(w, env).hosts
        && (h.state != Dead ==> (after == Dead <==> EndsWith(history, HOST_FAIL_THRESHOLD, false)))
        && (h.state == Dead ==>
             (after == Ready <==> EndsWith(history, HOST_RECOVER_THRESHOLD, true) && !TrafficExceeded(h, r)))
        && (h.state == Dead ==> after == Ready || after == Dead)
  {
    hide *;
    var w := Reach(w0, steps);
    var all := steps + [Poll(env)];
    if h in w.db.hosts {
      RunKeepsSound(w0, steps);
      SoundParts(w);
      StreaksAreTrailingRuns(w0, all, h.id);
      var history := History(w0, all, h.id);
      TrailingRunIs(history, false, HOST_FAIL_THRESHOLD);
      TrailingRunIs(history, true, HOST_RECOVER_THRESHOLD);
      ReachPoll(w0, steps, env);
      CountHostsAt(w.streaks, w.db.hosts, env, h);
      CycleStreaks(w, env);
      MatchIs(Cycle(w, env).streaks, history, h.id);
      DecidedByStreaks(h, w.streaks, env);
      CheckedIn(w, env, h);
    }
  }

  lemma ReachPoll(w0: World, steps: seq<Step>, env: Env)
    ensures Reach(w0, steps + [Poll(env)]) == Cycle(Reach(w0, steps), env)
  {
    hide Cycle;
    var all := steps + [Poll(env)];
    assert all[..|all| - 1] == steps;
  }

  lemma MatchIs(s: Streaks, history: seq<bool>, id: nat)
    requires StreaksMatch(s, history, id)
    ensures Streak(s.fail, id) == TrailingRun(history, false) && Streak(s.recover, id) == TrailingRun(history, true)
  {
  }

  lemma CheckedIn(w: World, env: Env, h: Host)
    requires ValidIds(w.db) && h in w.db.hosts
    ensures CheckedRow(h, w.streaks, env) in CheckedDb(w, env).hosts
  {
    hide CheckedDb, CheckedRow;
    CheckedRows(w, env);
    var i :| 0 <= i < |w.db.hosts| && w.db.hosts[i] == h;
    assert CheckedDb(w, env).hosts[i] == CheckedRow(h, w.streaks, env);
  }

  lemma DecidedByStreaks(h: Host, s: Streaks, env: Env)
    ensures
      var after := CheckedRow(h, s, env).state;
      && (h.state != Dead ==> (after == Dead <==> FailAfter(s, h.id, env) >= HOST_FAIL_THRESHOLD))
      && (h.state == Dead ==> (after == Ready <==>
           RecoverAfter(s, h.id, env) >= HOST_RECOVER_THRESHOLD && !TrafficExceeded(h, ResultOf(h, s, env))))
      && (h.state == Dead ==> after == Ready || after == Dead)
  {
    hide TrafficExceeded;
  }
}
