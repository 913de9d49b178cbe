// api/ddns_apply.go, findPoolLeader: the leader a saved rule is applied to.
module PoolLeaders {
  import opened Text
  import opened Models
  import opened Elections
  import opened Handlers

  // A row of this pool that is Ready.
  predicate Candidate(h: Host, pool: string) {
    h.pool == pool && h.state == Ready
  }

  predicate Precedes(g: Host, h: Host) {
    g.priority < h.priority || (g.priority == h.priority && g.id <= h.id)
  }

  // The first candidate by priority, then by id.
  function FindPoolLeader(hosts: seq<Host>, pool: string): Option<Host> {
    if |hosts| == 0 then None
    else
      var h := hosts[|hosts| - 1];
      var best := FindPoolLeader(hosts[..|hosts| - 1], pool);
      if Candidate(h, pool) && (best.None? || !Precedes(best.value, h)) then Some(h) else best
  }

  lemma {:induction false} PoolLeaderIsFirst(hosts: seq<Host>, pool: string)
    ensures FindPoolLeader(hosts, pool).None? <==> forall h :: h in hosts ==> h.pool != pool || h.state != Ready
    ensures FindPoolLeader(hosts, pool).Some? ==>
      var best := FindPoolLeader(hosts, pool).value;
      && best in hosts && best.pool == pool && best.state == Ready
      && forall h :: h in hosts && h.pool == pool && h.state == Ready ==>
           best.priority < h.priority || (best.priority == h.priority && best.id <= h.id)
  {
    if |hosts| > 0 {
      var n := |hosts| - 1;
      PoolLeaderIsFirst(hosts[..n], pool);
      assert hosts == hosts[..n] + [hosts[n]];
    }
  }

  // Where no two hosts share a pool and a priority, the host the poller elects
  // is the one its own pool's rule is applied to, exactly when the pool name it
  // carries is trimmed.
  lemma ElectionsAgree(hosts: seq<Host>, currentLeaderId: nat, tie: TieBreak)
    requires UniquePriorities(hosts) && AnyReady(hosts)
    ensures
      var leader := ElectionOf(hosts, currentLeaderId, tie).leader;
      FindPoolLeader(hosts, TrimSpace(leader.value.pool)) == leader <==> Trimmed(leader.value.pool)
  {
    hide ElectionOf, TrimSpace, Trimmed;
    var leader := ElectionOf(hosts, currentLeaderId, tie).leader.value;
    TrimSpaceTrims(leader.pool);
    PoolLeaderIsFirst(hosts, TrimSpace(leader.pool));
    if Trimmed(leader.pool) {
      var best := FindPoolLeader(hosts, leader.pool).value;
      SameSlotSameHost(hosts, best, leader);
    }
  }

  lemma SameSlotSameHost(hosts: seq<Host>, g: Host, h: Host)
    requires UniquePriorities(hosts) && g in hosts && h in hosts
    requires g.pool == h.pool && g.priority == h.priority
    ensures g == h
  {
  }
}
